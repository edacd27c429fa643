/**
  WPF0072ValueConversionMustUseCorrectTypes (first generation): the types in
  `[ValueConversion(typeof(S), typeof(T))]` are those the converter's Convert
  method converts between. A stand-alone analyzer on attribute nodes.
 */
module LegacyValueConversionTypes {
  import opened Host
  import opened ValueConversion

  const DiagnosticId := "WPF0072"
  const Rule := Descriptor(DiagnosticId, Warning, "ValueConversion must use correct types.")

  /** The containing symbol when it is a type. */
  datatype ContainingType = ContainingType(isAbstract: bool, isValueConverter: bool)

  /** Everything the semantic model answers about one attribute. */
  datatype Facts = Facts(
    excluded: bool,
    containingType: Option<ContainingType>,
    isAttribute: bool,
    isValueConversionAttribute: bool,           // Attribute.IsType(ValueConversionAttribute)
    hasClassDeclaration: bool,                  // the attribute's enclosing class declaration
    conversionTypes: Option<ConversionTypes>,   // TryGetConversionTypes of that class
    arguments: seq<Argument>)

  /**
    The type the semantic model gives an argument: the type a typeof names,
    string for a string constant, unknown otherwise.
   */
  function ArgumentType(e: Expression): (r: Option<TypeId>)
    ensures e.TypeOf? ==> r == e.typeArgument
  {
    match e
    case TypeOf(t) => t
    case StringConstant(_) => Some("System.String")
    case NonConstant => None
  }

  predicate Eligible(f: Facts) {
    && !f.excluded
    && f.containingType.Some?
    && f.isAttribute
    && !f.containingType.value.isAbstract
    && f.containingType.value.isValueConverter
    && f.isValueConversionAttribute
    && f.hasClassDeclaration
    && f.conversionTypes.Some?
  }

  /** One WPF0072, without message arguments, at the argument for `parameter` when its type is not `expected`. */
  function Mismatch(args: seq<Argument>, index: nat, parameter: string, expected: Option<TypeId>): (r: seq<Diagnostic>)
    ensures forall d :: d in r ==> d.id == DiagnosticId
    ensures r != [] <==> FoundExpression(args, index, parameter).Some? && ArgumentType(FoundExpression(args, index, parameter).value) != expected
    ensures r != [] ==> r == [Diagnostic(DiagnosticId, ArgumentNode(parameter), [], map[])]
  {
    match FoundExpression(args, index, parameter)
    case Some(e) => if ArgumentType(e) != expected then [Diagnostic(DiagnosticId, ArgumentNode(parameter), [], map[])] else []
    case None => []
  }

  /** Everything `HandleDeclaration` reports for one attribute: the source check, then the target check. */
  function Diagnose(f: Facts): seq<Diagnostic> {
    if !Eligible(f) then []
    else
      Mismatch(f.arguments, 0, "sourceType", f.conversionTypes.value.source)
      + Mismatch(f.arguments, 1, "targetType", f.conversionTypes.value.target)
  }

  /** The analyzer's node action, reporting through the host's sink. */
  method HandleDeclaration(f: Facts, sink: DiagnosticSink)
    modifies sink
    ensures sink.reported == old(sink.reported) + Diagnose(f)
  {
    if f.excluded {
      return;
    }

    if f.containingType.Some? && f.isAttribute && !f.containingType.value.isAbstract &&
       f.containingType.value.isValueConverter && f.isValueConversionAttribute &&
       f.hasClassDeclaration && f.conversionTypes.Some? {
      var inType := f.conversionTypes.value.source;
      var outType := f.conversionTypes.value.target;
      ghost var start := sink.reported;
      var arg := FoundExpression(f.arguments, 0, "sourceType");
      if arg.Some? && ArgumentType(arg.value) != inType {
        sink.Report(Diagnostic(Rule.id, ArgumentNode("sourceType"), [], map[]));
      }
      assert sink.reported == start + Mismatch(f.arguments, 0, "sourceType", inType);

      arg := FoundExpression(f.arguments, 1, "targetType");
      if arg.Some? && ArgumentType(arg.value) != outType {
        sink.Report(Diagnostic(Rule.id, ArgumentNode("targetType"), [], map[]));
      }
    }
  }

  // ---------------------------------------------------------------------
  // Properties of the rule

  /** Nothing is reported unless every guard holds and the conversion types resolve. */
  lemma IneligibleIsSilent(f: Facts)
    requires !Eligible(f)
    ensures Diagnose(f) == []
  {
  }

  /**
    The two checks are independent: the source check reports at the
    sourceType argument, the target check at the targetType argument, each
    exactly when that argument's type is not the inferred one.
   */
  lemma IndependentChecks(f: Facts)
    requires Eligible(f)
    ensures var source := FoundExpression(f.arguments, 0, "sourceType");
            var target := FoundExpression(f.arguments, 1, "targetType");
            && (Diagnostic(DiagnosticId, ArgumentNode("sourceType"), [], map[]) in Diagnose(f) <==>
                  source.Some? && ArgumentType(source.value) != f.conversionTypes.value.source)
            && (Diagnostic(DiagnosticId, ArgumentNode("targetType"), [], map[]) in Diagnose(f) <==>
                  target.Some? && ArgumentType(target.value) != f.conversionTypes.value.target)
            && |Diagnose(f)| <= 2
            && forall d :: d in Diagnose(f) ==> d.id == Rule.id && d.args == [] && d.properties == map[]
  {
  }

  /** The worked example: a wrong source type alone yields one report at the sourceType argument. */
  lemma WrongSourceTypeOnly(f: Facts)
    requires Eligible(f) && f.conversionTypes.value == ConversionTypes(Some("System.Collections.ICollection"), Some("System.Int32"))
    requires f.arguments == [Argument(None, TypeOf(Some("System.String")), "typeof(string)"),
                             Argument(None, TypeOf(Some("System.Int32")), "typeof(int)")]
    ensures Diagnose(f) == [Diagnostic(DiagnosticId, ArgumentNode("sourceType"), [], map[])]
  {
    assert FindNamed(f.arguments, "sourceType", 0) == None;
    assert FindNamed(f.arguments, "targetType", 0) == None;
  }
}
