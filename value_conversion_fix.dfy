/**
  ChangeValueConversionAttributeArgumentFix: for WPF0072, rewrite the first
  two arguments of the [ValueConversion] attribute as `typeof(S), typeof(T)`
  with the source and target types inferred from the converter.
 */
module ChangeValueConversionAttributeArgumentFix {
  import opened Host
  import opened ValueConversion
  import LegacyValueConversionTypes
  import ValueConverterAnalyzer
  import LegacyValueConverterAnalyzer

  const FixableDiagnosticIds: seq<string> := ["WPF0072"]

  /** The title the fix registers under (as written: it names another fix's action). */
  const Title := "Add default field."

  /**
    The nearest argument node around a diagnostic's location. Roslyn's
    `ArgumentSyntax` is an argument of an invocation, an object creation or
    an element access; an attribute's arguments are `AttributeArgumentSyntax`,
    which is a different node type.
   */
  datatype EnclosingArgument = NoArgument | InvocationArgument | AttributeArgument

  /**
    What the fix finds for one diagnostic: the text of the token at its
    start, the argument node around its location, the enclosing attribute's
    node, and the conversion types of the enclosing class.
   */
  datatype FixRequest = FixRequest(
    diagnostic: Diagnostic,
    tokenText: string,
    enclosing: EnclosingArgument,
    attribute: nat,
    conversionTypes: Option<ConversionTypes>)

  /** A registered fix: title, the diagnostic's position in the batch, and its edit. */
  datatype CodeFix = CodeFix(title: string, diagnostic: nat, attribute: nat, inType: Option<TypeId>, outType: Option<TypeId>)

  /** The guard as written: `FirstAncestorOrSelf<ArgumentSyntax>()` finds an argument. */
  predicate Fixable(r: FixRequest) {
    r.tokenText != "" && r.enclosing == InvocationArgument && r.conversionTypes.Some?
  }

  /** The edit proposed for the `i`th diagnostic. */
  function Proposal(i: nat, r: FixRequest): CodeFix
    requires r.conversionTypes.Some?
  {
    CodeFix(Title, i, r.attribute, r.conversionTypes.value.source, r.conversionTypes.value.target)
  }

  /** The fix for the `i`th diagnostic, if it has a target. */
  function FixFor(i: nat, r: FixRequest): (fix: seq<CodeFix>)
    ensures |fix| <= 1
    ensures fix != [] <==> Fixable(r)
    ensures fix != [] ==> && fix[0].title == Title && fix[0].diagnostic == i && fix[0].attribute == r.attribute
                          && fix[0].inType == r.conversionTypes.value.source
                          && fix[0].outType == r.conversionTypes.value.target
  {
    if Fixable(r) then [Proposal(i, r)] else []
  }

  /** The fixes registered for a batch of diagnostics, in order. */
  function Registered(requests: seq<FixRequest>): seq<CodeFix>
  {
    if requests == [] then []
    else Registered(requests[..|requests| - 1]) + FixFor(|requests| - 1, requests[|requests| - 1])
  }

  /** `RegisterCodeFixesAsync`: one pass over the diagnostics, skipping those on an empty token. */
  method RegisterCodeFixes(requests: seq<FixRequest>) returns (fixes: seq<CodeFix>)
    ensures fixes == Registered(requests)
  {
    fixes := [];
    for i := 0 to |requests|
      invariant fixes == Registered(requests[..i])
    {
      var r := requests[i];
      assert requests[..i + 1][..i] == requests[..i];
      if r.tokenText == "" {
        continue;
      }

      if r.enclosing == InvocationArgument && r.conversionTypes.Some? {
        fixes := fixes + [CodeFix(Title, i, r.attribute, r.conversionTypes.value.source, r.conversionTypes.value.target)];
      }
    }
    assert requests[..|requests|] == requests;
  }

  /**
    At most one fix per diagnostic, in diagnostic order, and a fix exactly for
    the diagnostics on a non-empty token, inside an `ArgumentSyntax`, in a
    class whose conversion types resolve.
   */
  lemma OneFixPerDiagnostic(requests: seq<FixRequest>)
    ensures var fixes := Registered(requests);
            && |fixes| <= |requests|
            && (forall k :: 0 <= k < |fixes| ==> fixes[k].diagnostic < |requests|)
            && (forall k, l :: 0 <= k < l < |fixes| ==> fixes[k].diagnostic < fixes[l].diagnostic)
            && (forall i :: 0 <= i < |requests| ==> (HasFix(fixes, i) <==> Fixable(requests[i])))
  {
    RegisteredInOrder(requests);
    RegisteredExactly(requests);
  }

  /** The fixes name distinct diagnostics of the batch, in increasing order. */
  lemma {:induction false} RegisteredInOrder(requests: seq<FixRequest>)
    ensures var fixes := Registered(requests);
            && |fixes| <= |requests|
            && (forall k :: 0 <= k < |fixes| ==> fixes[k].diagnostic < |requests|)
            && (forall k, l :: 0 <= k < l < |fixes| ==> fixes[k].diagnostic < fixes[l].diagnostic)
  {
    if requests != [] {
      var n := |requests| - 1;
      RegisteredInOrder(requests[..n]);
    }
  }

  /** Some fix of `fixes` is for the `i`th diagnostic. */
  predicate HasFix(fixes: seq<CodeFix>, i: nat) {
    exists k :: 0 <= k < |fixes| && fixes[k].diagnostic == i
  }

  /** A diagnostic has a fix exactly when it is fixable. */
  lemma {:induction false} RegisteredExactly(requests: seq<FixRequest>)
    ensures var fixes := Registered(requests);
            forall i :: 0 <= i < |requests| ==> (HasFix(fixes, i) <==> Fixable(requests[i]))
  {
    if requests != [] {
      var n := |requests| - 1;
      var front := requests[..n];
      RegisteredInOrder(front);
      RegisteredExactly(front);
      var fixes := Registered(requests);
      var earlier := Registered(front);
      var last := FixFor(n, requests[n]);
      assert fixes == earlier + last;
      forall i | 0 <= i < |requests|
        ensures HasFix(fixes, i) <==> Fixable(requests[i])
      {
        if i < n {
          assert front[i] == requests[i];
          if exists k :: 0 <= k < |fixes| && fixes[k].diagnostic == i {
            var k :| 0 <= k < |fixes| && fixes[k].diagnostic == i;
            assert k < |earlier|;
          }
          if Fixable(requests[i]) {
            var k :| 0 <= k < |earlier| && earlier[k].diagnostic == i;
            assert fixes[k] == earlier[k];
          }
        } else if Fixable(requests[i]) {
          assert fixes[|earlier|].diagnostic == i;
        }
      }
    }
  }

  /**
    As written, a diagnostic on an attribute argument gets no fix: it has no
    `ArgumentSyntax` around it, whatever the converter's types. Every WPF0072
    the analyzers report is on an attribute argument.
   */
  lemma AttributeArgumentGetsNoFix(requests: seq<FixRequest>, i: nat)
    requires i < |requests| && requests[i].enclosing == AttributeArgument
    ensures !HasFix(Registered(requests), i)
  {
    RegisteredExactly(requests);
  }

  /** The guard as evidently intended: the attribute argument carrying the diagnostic is found. */
  predicate IntendedFixable(r: FixRequest) {
    r.tokenText != "" && r.enclosing == AttributeArgument && r.conversionTypes.Some?
  }

  /** The fix for the `i`th diagnostic under the intended guard. */
  function IntendedFixFor(i: nat, r: FixRequest): (fix: seq<CodeFix>)
    ensures |fix| <= 1
    ensures fix != [] <==> IntendedFixable(r)
    ensures fix != [] ==> && fix[0].title == Title && fix[0].diagnostic == i && fix[0].attribute == r.attribute
                          && fix[0].inType == r.conversionTypes.value.source
                          && fix[0].outType == r.conversionTypes.value.target
  {
    if IntendedFixable(r) then [Proposal(i, r)] else []
  }

  /** `AttributeArgument(TypeOfExpression(TypeExpression(t)))`: an unlabelled `typeof(t)`. */
  function TypeOfArgumentSyntax(t: TypeId): Argument {
    Argument(None, TypeOf(Some(t)), "typeof(" + t + ")")
  }

  /**
    The attribute's arguments after the edit: the first two replaced by
    `typeof(inType)` and `typeof(outType)` by position, whatever their labels,
    the rest kept.
   */
  function Converted(args: seq<Argument>, inType: TypeId, outType: TypeId): (r: seq<Argument>)
    requires |args| >= 2
    ensures |r| == |args|
    ensures r[0].expression == TypeOf(Some(inType)) && r[0].name.None?
    ensures r[1].expression == TypeOf(Some(outType)) && r[1].name.None?
    ensures forall j :: 2 <= j < |args| ==> r[j] == args[j]
  {
    args[0 := TypeOfArgumentSyntax(inType)][1 := TypeOfArgumentSyntax(outType)]
  }

  /** The arguments of the attribute being edited. */
  class AttributeEditor {
    var arguments: seq<Argument>

    constructor (arguments: seq<Argument>)
      ensures this.arguments == arguments
    {
      this.arguments := arguments;
    }

    /** `ReplaceNode(Arguments[i], replacement)`. */
    method ReplaceNode(i: nat, replacement: Argument)
      requires i < |arguments|
      modifies this
      ensures arguments == old(arguments)[i := replacement]
    {
      arguments := arguments[i := replacement];
    }
  }

  /**
    `AddAttribute`: the edit of a registered fix. The attribute must have two
    arguments and both types must be known; otherwise the source's edit throws.
   */
  method AddAttribute(editor: AttributeEditor, fix: CodeFix)
    requires |editor.arguments| >= 2 && fix.inType.Some? && fix.outType.Some?
    modifies editor
    ensures editor.arguments == Converted(old(editor.arguments), fix.inType.value, fix.outType.value)
  {
    editor.ReplaceNode(0, TypeOfArgumentSyntax(fix.inType.value));
    editor.ReplaceNode(1, TypeOfArgumentSyntax(fix.outType.value));
  }

  // ---------------------------------------------------------------------
  // The edit against the WPF0072 checks

  /** No argument after the first two carries the label `sourceType` or `targetType` (as in valid C#). */
  predicate PositionalLabels(args: seq<Argument>) {
    forall j :: 2 <= j < |args| ==> args[j].name != Some("sourceType") && args[j].name != Some("targetType")
  }

  /** After the edit, the sourceType and targetType lookups find the two new typeof arguments. */
  lemma ConvertedArgumentsAreFound(args: seq<Argument>, inType: TypeId, outType: TypeId)
    requires |args| >= 2 && PositionalLabels(args)
    ensures var r := Converted(args, inType, outType);
            && FoundExpression(r, 0, "sourceType") == Some(TypeOf(Some(inType)))
            && FoundExpression(r, 1, "targetType") == Some(TypeOf(Some(outType)))
            && TypeOfArgument(r, 0, "sourceType") == Some(inType)
            && TypeOfArgument(r, 1, "targetType") == Some(outType)
  {
    var r := Converted(args, inType, outType);
    assert forall j :: 0 <= j < |r| ==> r[j].name != Some("sourceType");
    assert forall j :: 0 <= j < |r| ==> r[j].name != Some("targetType");
  }

  /** Applying the edit twice is applying it once. */
  lemma ConvertedIsIdempotent(args: seq<Argument>, inType: TypeId, outType: TypeId)
    requires |args| >= 2
    ensures Converted(Converted(args, inType, outType), inType, outType) == Converted(args, inType, outType)
  {
  }

  /**
    With both conversion types known, the first-generation WPF0072 analyzer
    reports nothing on the edited attribute.
   */
  lemma NoLegacyWpf0072AfterFix(f: LegacyValueConversionTypes.Facts)
    requires LegacyValueConversionTypes.Eligible(f)
    requires f.conversionTypes.value.source.Some? && f.conversionTypes.value.target.Some?
    requires |f.arguments| >= 2 && PositionalLabels(f.arguments)
    ensures LegacyValueConversionTypes.Diagnose(
              f.(arguments := Converted(f.arguments, f.conversionTypes.value.source.value, f.conversionTypes.value.target.value))) == []
  {
    ConvertedArgumentsAreFound(f.arguments, f.conversionTypes.value.source.value, f.conversionTypes.value.target.value);
  }

  /** With both conversion types known, ValueConverterAnalyzer reports no WPF0072 on the edited converter. */
  lemma NoWpf0072AfterFix(f: ValueConverterAnalyzer.Facts)
    requires f.valueConversion.Some? && f.conversionTypes.Some?
    requires f.conversionTypes.value.source.Some? && f.conversionTypes.value.target.Some?
    requires |f.valueConversion.value| >= 2 && PositionalLabels(f.valueConversion.value)
    ensures var types := f.conversionTypes.value;
            var g := f.(valueConversion := Some(Converted(f.valueConversion.value, types.source.value, types.target.value)));
            WithId(ValueConverterAnalyzer.Diagnose(g), "WPF0072") == []
  {
    var types := f.conversionTypes.value;
    var g := f.(valueConversion := Some(Converted(f.valueConversion.value, types.source.value, types.target.value)));
    ConvertedArgumentsAreFound(f.valueConversion.value, types.source.value, types.target.value);
    ValueConverterAnalyzer.DiagnoseById(g, "WPF0072");
    if ValueConverterAnalyzer.Eligible(g) {
      WithIdAbsent(ValueConverterAnalyzer.ConversionRules(g), "WPF0072");
    }
  }

  /** The same for the first-generation ValueConverterAnalyzer, which also checks object source types. */
  lemma NoLegacyConverterWpf0072AfterFix(f: LegacyValueConverterAnalyzer.Facts)
    requires f.valueConversion.Some? && f.conversionTypes.Some?
    requires f.conversionTypes.value.source.Some? && f.conversionTypes.value.target.Some?
    requires |f.valueConversion.value| >= 2 && PositionalLabels(f.valueConversion.value)
    ensures var types := f.conversionTypes.value;
            var g := f.(valueConversion := Some(Converted(f.valueConversion.value, types.source.value, types.target.value)));
            forall d :: d in LegacyValueConverterAnalyzer.Diagnose(g) ==> d.id != "WPF0072"
  {
    var types := f.conversionTypes.value;
    ConvertedArgumentsAreFound(f.valueConversion.value, types.source.value, types.target.value);
  }

  /**
    Under the intended guard, a WPF0072 on an attribute argument of a
    converter whose types resolve gets a fix, and that fix's edit leaves
    ValueConverterAnalyzer with no WPF0072.
   */
  lemma IntendedFixClearsWpf0072(i: nat, r: FixRequest, f: ValueConverterAnalyzer.Facts)
    requires r.tokenText != "" && r.enclosing == AttributeArgument && r.conversionTypes == f.conversionTypes
    requires f.valueConversion.Some? && f.conversionTypes.Some?
    requires f.conversionTypes.value.source.Some? && f.conversionTypes.value.target.Some?
    requires |f.valueConversion.value| >= 2 && PositionalLabels(f.valueConversion.value)
    ensures |IntendedFixFor(i, r)| == 1
    ensures var fix := IntendedFixFor(i, r)[0];
            var g := f.(valueConversion := Some(Converted(f.valueConversion.value, fix.inType.value, fix.outType.value)));
            WithId(ValueConverterAnalyzer.Diagnose(g), "WPF0072") == []
  {
    NoWpf0072AfterFix(f);
  }
}
