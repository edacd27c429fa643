/**
  UseContainingTypeFix: for WPF0011, WPF0101, WPF0121 and WPF0140, replace the
  type in the offending `typeof(...)` with the nearest enclosing type.
 */
module UseContainingTypeFix {
  import opened Host
  import ComponentResourceKeyAnalyzer

  const FixableDiagnosticIds: seq<string> := ["WPF0011", "WPF0101", "WPF0121", "WPF0140"]

  /** A `typeof(...)` expression of the document: its node and span start. */
  datatype TypeOfExpression = TypeOfExpression(node: nat, spanStart: nat)

  /**
    What the fix finds for one diagnostic: the typeof expression at or above
    its location, and the symbol of the nearest type declaration around it.
   */
  datatype FixRequest = FixRequest(diagnostic: Diagnostic, typeofExpression: Option<TypeOfExpression>, containingType: Option<TypeId>)

  /** A registered fix: title, equivalence key, the diagnostic's position in the batch, and its edit. */
  datatype CodeFix = CodeFix(title: string, equivalenceKey: string, diagnostic: nat, node: nat, typeName: string)

  predicate Fixable(r: FixRequest) {
    r.typeofExpression.Some? && r.containingType.Some?
  }

  /** The fix for the `i`th diagnostic, if it has a target. */
  function FixFor(i: nat, r: FixRequest, display: (TypeId, nat) -> string): (fix: seq<CodeFix>)
    ensures |fix| <= 1
    ensures fix != [] <==> Fixable(r)
    ensures fix != [] ==> fix[0].diagnostic == i && fix[0].node == r.typeofExpression.value.node
                          && fix[0].typeName == display(r.containingType.value, r.typeofExpression.value.spanStart)
  {
    if Fixable(r) then
      var name := display(r.containingType.value, r.typeofExpression.value.spanStart);
      [CodeFix("Use containing type: " + name + ".", "Use containing type.", i, r.typeofExpression.value.node, name)]
    else []
  }

  /** The fixes registered for a batch of diagnostics, in order. */
  function Registered(requests: seq<FixRequest>, display: (TypeId, nat) -> string): seq<CodeFix>
  {
    if requests == [] then []
    else Registered(requests[..|requests| - 1], display) + FixFor(|requests| - 1, requests[|requests| - 1], display)
  }

  /** `RegisterCodeFixesAsync`: one pass over the diagnostics. */
  method RegisterCodeFixes(requests: seq<FixRequest>, display: (TypeId, nat) -> string) returns (fixes: seq<CodeFix>)
    ensures fixes == Registered(requests, display)
  {
    fixes := [];
    for i := 0 to |requests|
      invariant fixes == Registered(requests[..i], display)
    {
      var r := requests[i];
      assert requests[..i + 1][..i] == requests[..i];
      if r.typeofExpression.Some? && r.containingType.Some? {
        var containingTypeName := display(r.containingType.value, r.typeofExpression.value.spanStart);
        fixes := fixes + [CodeFix("Use containing type: " + containingTypeName + ".", "Use containing type.",
                                  i, r.typeofExpression.value.node, containingTypeName)];
      }
    }
    assert requests[..|requests|] == requests;
  }

  /**
    At most one fix per diagnostic, in diagnostic order, and a fix exactly for
    the diagnostics whose typeof and enclosing type resolve.
   */
  lemma {:induction false} OneFixPerDiagnostic(requests: seq<FixRequest>, display: (TypeId, nat) -> string)
    ensures var fixes := Registered(requests, display);
            && |fixes| <= |requests|
            && (forall k :: 0 <= k < |fixes| ==> fixes[k].diagnostic < |requests|)
            && (forall k, l :: 0 <= k < l < |fixes| ==> fixes[k].diagnostic < fixes[l].diagnostic)
            && (forall i :: 0 <= i < |requests| ==> ((exists k :: 0 <= k < |fixes| && fixes[k].diagnostic == i) <==> Fixable(requests[i])))
  {
    if requests != [] {
      var n := |requests| - 1;
      var front := requests[..n];
      OneFixPerDiagnostic(front, display);
      var fixes := Registered(requests, display);
      var earlier := Registered(front, display);
      var last := FixFor(n, requests[n], display);
      assert fixes == earlier + last;
      forall i | 0 <= i < |requests|
        ensures (exists k :: 0 <= k < |fixes| && fixes[k].diagnostic == i) <==> Fixable(requests[i])
      {
        if i < n {
          assert front[i] == requests[i];
          if exists k :: 0 <= k < |fixes| && fixes[k].diagnostic == i {
            var k :| 0 <= k < |fixes| && fixes[k].diagnostic == i;
            assert k < |earlier|;
          }
          if Fixable(requests[i]) {
            var k :| 0 <= k < |earlier| && earlier[k].diagnostic == i;
            assert fixes[k] == earlier[k];
          }
        } else if Fixable(requests[i]) {
          assert fixes[|earlier|].diagnostic == i;
        }
      }
    }
  }

  /** The document's typeof expressions, by node, with the text of their type. */
  class DocumentEditor {
    var typeofTypes: map<nat, string>

    constructor (typeofTypes: map<nat, string>)
      ensures this.typeofTypes == typeofTypes
    {
      this.typeofTypes := typeofTypes;
    }

    /** `ReplaceNode(typeofExpression, x => x.WithType(ParseTypeName(typeName)))`. */
    method ReplaceTypeOfType(node: nat, typeName: string)
      requires node in typeofTypes
      modifies this
      ensures typeofTypes == old(typeofTypes)[node := typeName]
    {
      typeofTypes := typeofTypes[node := typeName];
    }
  }

  /** Applying a fix rewrites the type of its typeof and no other node. */
  method Apply(fix: CodeFix, editor: DocumentEditor)
    requires fix.node in editor.typeofTypes
    modifies editor
    ensures editor.typeofTypes.Keys == old(editor.typeofTypes).Keys
    ensures editor.typeofTypes[fix.node] == fix.typeName
    ensures forall n :: n in editor.typeofTypes && n != fix.node ==> editor.typeofTypes[n] == old(editor.typeofTypes)[n]
  {
    editor.ReplaceTypeOfType(fix.node, fix.typeName);
  }

  // ---------------------------------------------------------------------
  // The fix against ComponentResourceKeyAnalyzer

  /**
    A ComponentResourceKey creation after the fix: the typeInTargetAssembly
    argument becomes `typeof(typeName)`, which resolves to `resolved`.
   */
  function UseContainingType(f: ComponentResourceKeyAnalyzer.Facts, typeName: string, resolved: TypeId): (r: ComponentResourceKeyAnalyzer.Facts)
    requires f.constructorParameters.Some?
    ensures |r.arguments| == |f.arguments|
    ensures r == f.(arguments := r.arguments)
    ensures forall j :: 0 <= j < |f.arguments| ==> r.arguments[j].name == f.arguments[j].name
    ensures forall j :: 0 <= j < |f.arguments| && Some(j) != ComponentResourceKeyAnalyzer.ArgumentFor(f, "typeInTargetAssembly") ==>
              r.arguments[j] == f.arguments[j]
  {
    match ComponentResourceKeyAnalyzer.ArgumentFor(f, "typeInTargetAssembly")
    case Some(i) =>
      f.(arguments := f.arguments[i := Argument(f.arguments[i].name, TypeOf(Some(resolved)), "typeof(" + typeName + ")")])
    case None => f
  }

  /**
    After the fix, when the enclosing type it names is the member's containing
    type, the typeInTargetAssembly check of the argument-bearing branch finds
    equal types: WPF0140 does not recur.
   */
  lemma NoWpf0140AfterFix(f: ComponentResourceKeyAnalyzer.Facts, typeName: string)
    requires ComponentResourceKeyAnalyzer.Eligible(f) && f.constructorParameters.value != []
    ensures var g := UseContainingType(f, typeName, f.containingType);
            WithId(ComponentResourceKeyAnalyzer.Diagnose(g), "WPF0140") == []
  {
    var g := UseContainingType(f, typeName, f.containingType);
    var p := ComponentResourceKeyAnalyzer.ParameterIndex(f.constructorParameters.value, "typeInTargetAssembly");
    if p.Some? {
      FindArgumentByLabels(f.arguments, g.arguments, p.value, "typeInTargetAssembly");
    }
    assert ComponentResourceKeyAnalyzer.ArgumentFor(g, "typeInTargetAssembly") == ComponentResourceKeyAnalyzer.ArgumentFor(f, "typeInTargetAssembly");
    ComponentResourceKeyAnalyzer.Wpf0140Condition(g);
  }

  /** The fix leaves the resourceId check alone when that check reads another argument. */
  lemma ResourceIdUnchangedByFix(f: ComponentResourceKeyAnalyzer.Facts, typeName: string)
    requires ComponentResourceKeyAnalyzer.Eligible(f) && f.constructorParameters.value != []
    requires || ComponentResourceKeyAnalyzer.ArgumentFor(f, "resourceId").None?
             || ComponentResourceKeyAnalyzer.ArgumentFor(f, "resourceId") != ComponentResourceKeyAnalyzer.ArgumentFor(f, "typeInTargetAssembly")
    ensures var g := UseContainingType(f, typeName, f.containingType);
            WithId(ComponentResourceKeyAnalyzer.Diagnose(g), "WPF0141") == WithId(ComponentResourceKeyAnalyzer.Diagnose(f), "WPF0141")
  {
    var g := UseContainingType(f, typeName, f.containingType);
    var p := ComponentResourceKeyAnalyzer.ParameterIndex(f.constructorParameters.value, "resourceId");
    if p.Some? {
      FindArgumentByLabels(f.arguments, g.arguments, p.value, "resourceId");
    }
    assert ComponentResourceKeyAnalyzer.ArgumentFor(g, "resourceId") == ComponentResourceKeyAnalyzer.ArgumentFor(f, "resourceId");
    ComponentResourceKeyAnalyzer.Wpf0141Condition(f);
    ComponentResourceKeyAnalyzer.Wpf0141Condition(g);
  }
}
