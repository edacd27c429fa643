/**
  AttributeAnalyzer: checks on six WPF attributes, one rule per attribute type.
  WPF0051: [XmlnsDefinition] maps an existing namespace; WPF0081:
  [MarkupExtensionReturnType] names the extension's return type; WPF0082:
  [ConstructorArgument] names the matching constructor parameter; WPF0084 /
  WPF0085: the handler named by [XamlSetMarkupExtension] /
  [XamlSetTypeConverter] exists with the right signature; WPF0132: a
  [TemplatePart] name starts with "PART_".
 */
module AttributeAnalyzer {
  import opened Host
  import opened Text

  /** The attribute's type, as `Attribute.IsType` tells it. */
  datatype AttributeType =
    | XmlnsDefinitionAttribute
    | MarkupExtensionReturnTypeAttribute
    | ConstructorArgumentAttribute
    | XamlSetMarkupExtensionAttribute
    | XamlSetTypeConverterAttribute
    | TemplatePartAttribute
    | OtherAttribute

  const ClrNamespaceArgumentName := "clrNamespace"
  const XamlSetMarkupExtensionEventArgsType: TypeId := "System.Windows.Markup.XamlSetMarkupExtensionEventArgs"
  const XamlSetTypeConverterEventArgsType: TypeId := "System.Windows.Markup.XamlSetTypeConverterEventArgs"
  const PartPrefix := "PART_"

  /** A namespace symbol of the compilation: its simple name and its minimal display string. */
  datatype NamespaceSymbol = NamespaceSymbol(name: string, display: string)

  /** A method found on the containing type or one of its base types. */
  datatype Method = Method(name: string, returnsVoid: bool, parameterTypes: seq<TypeId>)

  /** The containing symbol when it is a type. */
  datatype ContainingType = ContainingType(isAbstract: bool, isMarkupExtension: bool, methods: seq<Method>)

  /** Everything the semantic model answers about one attribute. */
  datatype Facts = Facts(
    excluded: bool,
    isAttribute: bool,
    attributeType: AttributeType,
    arguments: seq<Argument>,
    namespaces: seq<NamespaceSymbol>,            // the compilation's namespace symbols
    containingType: Option<ContainingType>,
    markupReturnType: Option<TypeId>,            // MarkupExtension.TryGetReturnType of the enclosing class
    constructorArgumentName: Option<string>,     // ConstructorArgument.TryGetArgumentName
    constructorParameterName: Option<string>)    // ConstructorArgument.TryGetParameterName of the enclosing property

  /** `void Handler(object, XamlSetMarkupExtensionEventArgs)`. */
  predicate IsMarkupExtensionHandler(m: Method) {
    && m.returnsVoid
    && |m.parameterTypes| == 2
    && m.parameterTypes[0] == ObjectType
    && m.parameterTypes[1] == XamlSetMarkupExtensionEventArgsType
  }

  /** `void Handler(object, XamlSetTypeConverterEventArgs)`. */
  predicate IsTypeConverterHandler(m: Method) {
    && m.returnsVoid
    && |m.parameterTypes| == 2
    && m.parameterTypes[0] == ObjectType
    && m.parameterTypes[1] == XamlSetTypeConverterEventArgsType
  }

  /** The constant string of the argument `FindArgument(index, name)` finds, if it is one. */
  function ConstantArgument(args: seq<Argument>, index: nat, name: string): (r: Option<string>)
    ensures r.Some? <==> FoundExpression(args, index, name).Some? && FoundExpression(args, index, name).value.StringConstant?
    ensures r.Some? ==> FoundExpression(args, index, name).value.value == r.value
  {
    match FoundExpression(args, index, name)
    case Some(StringConstant(s)) => Some(s)
    case _ => None
  }

  /** The text of the argument `FindArgument(index, name)` finds (empty when there is none). */
  function ArgumentText(args: seq<Argument>, index: nat, name: string): string {
    match FindArgument(args, index, name)
    case Some(i) => args[i].text
    case None => ""
  }

  /** Some namespace symbol with a non-empty name that ends `ns` displays exactly as `ns`. */
  predicate NamespaceExists(namespaces: seq<NamespaceSymbol>, ns: string) {
    exists x :: x in namespaces && x.name != "" && EndsWith(ns, x.name) && x.display == ns
  }

  /** WPF0051: the clrNamespace argument is a constant naming no namespace of the compilation. */
  function XmlnsDefinition(f: Facts): (r: seq<Diagnostic>)
    ensures forall d :: d in r ==> d.id == "WPF0051"
  {
    match ConstantArgument(f.arguments, 1, ClrNamespaceArgumentName)
    case Some(ns) =>
      if !NamespaceExists(f.namespaces, ns) then
        [Diagnostic("WPF0051", ArgumentNode(ClrNamespaceArgumentName), [ArgumentText(f.arguments, 1, ClrNamespaceArgumentName)], map[])]
      else []
    case None => []
  }

  /** The typeof type of the argument `FindArgument(index, name)` finds, when it is a typeof that resolves. */
  function TypeOfArgument(args: seq<Argument>, index: nat, name: string): (r: Option<TypeId>)
    ensures r.Some? <==> FoundExpression(args, index, name).Some? && FoundExpression(args, index, name).value.TypeOf?
                         && FoundExpression(args, index, name).value.typeArgument.Some?
    ensures r.Some? ==> FoundExpression(args, index, name).value == TypeOf(r)
  {
    match FoundExpression(args, index, name)
    case Some(TypeOf(Some(t))) => Some(t)
    case _ => None
  }

  /**
    WPF0081: on a concrete MarkupExtension whose resolved return type is not
    object, the typeof argument names another type.
   */
  function ReturnTypeRule(f: Facts): (r: seq<Diagnostic>)
    ensures forall d :: d in r ==> d.id == "WPF0081"
  {
    if f.containingType.Some? && !f.containingType.value.isAbstract && f.containingType.value.isMarkupExtension
       && f.markupReturnType.Some? && f.markupReturnType.value != ObjectType then
      match TypeOfArgument(f.arguments, 0, "returnType")
      case Some(argumentType) =>
        if argumentType != f.markupReturnType.value then
          [Diagnostic("WPF0081", ArgumentNode("returnType"), [f.markupReturnType.value], map[])]
        else []
      case None => []
    else []
  }

  /** WPF0082: the argument name differs from the constructor parameter the property is assigned from. */
  function ConstructorArgumentRule(f: Facts): (r: seq<Diagnostic>)
    ensures forall d :: d in r ==> d.id == "WPF0082"
  {
    match f.constructorArgumentName
    case Some(argumentName) =>
      (match f.constructorParameterName
       case Some(parameterName) =>
         if argumentName != parameterName then
           [Diagnostic("WPF0082", ArgumentNode("argumentName"), [parameterName], map["ConstructorArgument" := parameterName])]
         else []
       case None => [])
    case None => []
  }

  /** `TryFindFirstMethodRecursive(target, isHandler)`; a containing symbol that is not a type finds nothing. */
  predicate HasHandler(t: Option<ContainingType>, target: string, markupExtension: bool) {
    t.Some? && exists m :: m in t.value.methods && m.name == target &&
                           (if markupExtension then IsMarkupExtensionHandler(m) else IsTypeConverterHandler(m))
  }

  /** WPF0084 / WPF0085: the constant handler name names no method with the handler signature. */
  function HandlerRule(f: Facts, id: string, parameter: string, markupExtension: bool): (r: seq<Diagnostic>)
    ensures forall d :: d in r ==> d.id == id
  {
    match ConstantArgument(f.arguments, 0, parameter)
    case Some(target) =>
      if !HasHandler(f.containingType, target, markupExtension) then
        [Diagnostic(id, ArgumentExpression(parameter), [], map[])]
      else []
    case None => []
  }

  /** WPF0132: a constant part name without the "PART_" prefix. */
  function TemplatePartRule(f: Facts): (r: seq<Diagnostic>)
    ensures forall d :: d in r ==> d.id == "WPF0132"
  {
    match ConstantArgument(f.arguments, 0, "Name")
    case Some(partName) =>
      if !StartsWith(partName, PartPrefix) then
        [Diagnostic("WPF0132", ArgumentExpression("Name"), [ArgumentText(f.arguments, 0, "Name")], map[])]
      else []
    case None => []
  }

  /** The rule of each attribute type. */
  function Diagnose(f: Facts): (r: seq<Diagnostic>)
    ensures |r| <= 1
  {
    if f.excluded || !f.isAttribute then []
    else match f.attributeType
      case XmlnsDefinitionAttribute => XmlnsDefinition(f)
      case MarkupExtensionReturnTypeAttribute => ReturnTypeRule(f)
      case ConstructorArgumentAttribute => ConstructorArgumentRule(f)
      case XamlSetMarkupExtensionAttribute => HandlerRule(f, "WPF0084", "xamlSetMarkupExtensionHandler", true)
      case XamlSetTypeConverterAttribute => HandlerRule(f, "WPF0085", "xamlSetTypeConverterHandler", false)
      case TemplatePartAttribute => TemplatePartRule(f)
      case OtherAttribute => []
  }

  /** The analyzer's node action: an else-if chain reporting at most one diagnostic. */
  method Handle(f: Facts, sink: DiagnosticSink)
    modifies sink
    ensures sink.reported == old(sink.reported) + Diagnose(f)
  {
    if !f.excluded && f.isAttribute {
      var ns := ConstantArgument(f.arguments, 1, ClrNamespaceArgumentName);
      var returnType := TypeOfArgument(f.arguments, 0, "returnType");
      var markupTarget := ConstantArgument(f.arguments, 0, "xamlSetMarkupExtensionHandler");
      var converterTarget := ConstantArgument(f.arguments, 0, "xamlSetTypeConverterHandler");
      var partName := ConstantArgument(f.arguments, 0, "Name");
      if f.attributeType == XmlnsDefinitionAttribute && ns.Some? && !NamespaceExists(f.namespaces, ns.value) {
        sink.Report(Diagnostic("WPF0051", ArgumentNode(ClrNamespaceArgumentName), [ArgumentText(f.arguments, 1, ClrNamespaceArgumentName)], map[]));
      } else if f.attributeType == MarkupExtensionReturnTypeAttribute &&
                f.containingType.Some? && !f.containingType.value.isAbstract && f.containingType.value.isMarkupExtension &&
                f.markupReturnType.Some? && f.markupReturnType.value != ObjectType &&
                returnType.Some? && returnType.value != f.markupReturnType.value {
        sink.Report(Diagnostic("WPF0081", ArgumentNode("returnType"), [f.markupReturnType.value], map[]));
      } else if f.attributeType == ConstructorArgumentAttribute &&
                f.constructorArgumentName.Some? && f.constructorParameterName.Some? &&
                f.constructorArgumentName.value != f.constructorParameterName.value {
        sink.Report(Diagnostic("WPF0082", ArgumentNode("argumentName"), [f.constructorParameterName.value],
                               map["ConstructorArgument" := f.constructorParameterName.value]));
      } else if f.attributeType == XamlSetMarkupExtensionAttribute &&
                markupTarget.Some? && !HasHandler(f.containingType, markupTarget.value, true) {
        sink.Report(Diagnostic("WPF0084", ArgumentExpression("xamlSetMarkupExtensionHandler"), [], map[]));
      } else if f.attributeType == XamlSetTypeConverterAttribute &&
                converterTarget.Some? && !HasHandler(f.containingType, converterTarget.value, false) {
        sink.Report(Diagnostic("WPF0085", ArgumentExpression("xamlSetTypeConverterHandler"), [], map[]));
      } else if f.attributeType == TemplatePartAttribute &&
                partName.Some? && !StartsWith(partName.value, PartPrefix) {
        sink.Report(Diagnostic("WPF0132", ArgumentExpression("Name"), [ArgumentText(f.arguments, 0, "Name")], map[]));
      }
    }
  }

  // ---------------------------------------------------------------------
  // Properties of the rules

  predicate Analysed(f: Facts) {
    !f.excluded && f.isAttribute
  }

  /** The rule that reports `id` applies to one attribute type only. */
  lemma {:induction false} OnlyOwnAttributeType(f: Facts, id: string, t: AttributeType)
    requires (id, t) in {("WPF0051", XmlnsDefinitionAttribute), ("WPF0081", MarkupExtensionReturnTypeAttribute),
                         ("WPF0082", ConstructorArgumentAttribute), ("WPF0084", XamlSetMarkupExtensionAttribute),
                         ("WPF0085", XamlSetTypeConverterAttribute), ("WPF0132", TemplatePartAttribute)}
    requires f.attributeType != t
    ensures WithId(Diagnose(f), id) == []
  {
    var r := Diagnose(f);
    if r != [] {
      assert r == [r[0]];
      assert r[0].id != id by {
        match f.attributeType
        case XmlnsDefinitionAttribute => assert r[0] in XmlnsDefinition(f);
        case MarkupExtensionReturnTypeAttribute => assert r[0] in ReturnTypeRule(f);
        case ConstructorArgumentAttribute => assert r[0] in ConstructorArgumentRule(f);
        case XamlSetMarkupExtensionAttribute => assert r[0] in HandlerRule(f, "WPF0084", "xamlSetMarkupExtensionHandler", true);
        case XamlSetTypeConverterAttribute => assert r[0] in HandlerRule(f, "WPF0085", "xamlSetTypeConverterHandler", false);
        case TemplatePartAttribute => assert r[0] in TemplatePartRule(f);
        case OtherAttribute =>
      }
      WithIdAbsent(r, id);
    }
  }

  /** A one-piece `Diagnose` filters to itself for its own id. */
  lemma OwnRule(f: Facts, id: string)
    requires forall d :: d in Diagnose(f) ==> d.id == id
    ensures WithId(Diagnose(f), id) == Diagnose(f)
  {
    WithIdAll(Diagnose(f), id);
  }

  /** The two handler signatures differ in their second parameter, so no method has both. */
  lemma HandlerSignaturesExclusive(m: Method)
    ensures !(IsMarkupExtensionHandler(m) && IsTypeConverterHandler(m))
  {
  }

  /** The handler signature, stated as the one shape of method it accepts. */
  lemma HandlerSignature(m: Method)
    ensures IsMarkupExtensionHandler(m) <==> m == Method(m.name, true, [ObjectType, XamlSetMarkupExtensionEventArgsType])
    ensures IsTypeConverterHandler(m) <==> m == Method(m.name, true, [ObjectType, XamlSetTypeConverterEventArgsType])
  {
    if IsMarkupExtensionHandler(m) || IsTypeConverterHandler(m) {
      assert m.parameterTypes == [m.parameterTypes[0], m.parameterTypes[1]];
    }
  }

  /** WPF0132 is reported exactly for a TemplatePart whose Name is a constant not starting with "PART_". */
  lemma Wpf0132Condition(f: Facts)
    ensures var name := ConstantArgument(f.arguments, 0, "Name");
            WithId(Diagnose(f), "WPF0132") ==
              if Analysed(f) && f.attributeType == TemplatePartAttribute && name.Some? && !StartsWith(name.value, PartPrefix) then
                [Diagnostic("WPF0132", ArgumentExpression("Name"), [ArgumentText(f.arguments, 0, "Name")], map[])]
              else []
  {
    if Analysed(f) && f.attributeType == TemplatePartAttribute {
      OwnRule(f, "WPF0132");
    } else if Analysed(f) {
      OnlyOwnAttributeType(f, "WPF0132", TemplatePartAttribute);
    }
  }

  /** The prefix test is ordinal and case-sensitive. */
  lemma PartPrefixExamples()
    ensures StartsWith("PART_Bar", PartPrefix)
    ensures !StartsWith("Bar", PartPrefix)
    ensures !StartsWith("part_Bar", PartPrefix)
    ensures !StartsWith("PART", PartPrefix)
  {
    assert "PART_Bar"[..5] == PartPrefix;
    assert "part_Bar"[..5][0] != PartPrefix[0];
  }

  /**
    WPF0084 (WPF0085) is reported exactly when the handler argument is a
    constant and no method of that name on the type chain has the
    markup-extension (type-converter) handler signature; a containing symbol
    that is not a type has no such method.
   */
  lemma HandlerConditions(f: Facts)
    ensures var target := ConstantArgument(f.arguments, 0, "xamlSetMarkupExtensionHandler");
            WithId(Diagnose(f), "WPF0084") != [] <==>
              && Analysed(f) && f.attributeType == XamlSetMarkupExtensionAttribute && target.Some?
              && !(f.containingType.Some? && exists m :: m in f.containingType.value.methods && m.name == target.value && IsMarkupExtensionHandler(m))
    ensures var target := ConstantArgument(f.arguments, 0, "xamlSetTypeConverterHandler");
            WithId(Diagnose(f), "WPF0085") != [] <==>
              && Analysed(f) && f.attributeType == XamlSetTypeConverterAttribute && target.Some?
              && !(f.containingType.Some? && exists m :: m in f.containingType.value.methods && m.name == target.value && IsTypeConverterHandler(m))
  {
    if Analysed(f) && f.attributeType == XamlSetMarkupExtensionAttribute {
      OwnRule(f, "WPF0084");
      OnlyOwnAttributeType(f, "WPF0085", XamlSetTypeConverterAttribute);
    } else if Analysed(f) && f.attributeType == XamlSetTypeConverterAttribute {
      OwnRule(f, "WPF0085");
      OnlyOwnAttributeType(f, "WPF0084", XamlSetMarkupExtensionAttribute);
    } else if Analysed(f) {
      OnlyOwnAttributeType(f, "WPF0084", XamlSetMarkupExtensionAttribute);
      OnlyOwnAttributeType(f, "WPF0085", XamlSetTypeConverterAttribute);
    }
  }

  /**
    WPF0082 is reported exactly when both the argument name and the parameter
    name resolve and differ; the fix property carries the parameter name.
   */
  lemma Wpf0082Condition(f: Facts)
    ensures WithId(Diagnose(f), "WPF0082") ==
              if Analysed(f) && f.attributeType == ConstructorArgumentAttribute
                 && f.constructorArgumentName.Some? && f.constructorParameterName.Some?
                 && f.constructorArgumentName.value != f.constructorParameterName.value then
                var p := f.constructorParameterName.value;
                [Diagnostic("WPF0082", ArgumentNode("argumentName"), [p], map["ConstructorArgument" := p])]
              else []
  {
    if Analysed(f) && f.attributeType == ConstructorArgumentAttribute {
      OwnRule(f, "WPF0082");
    } else if Analysed(f) {
      OnlyOwnAttributeType(f, "WPF0082", ConstructorArgumentAttribute);
    }
  }

  /**
    WPF0081 needs every one of: a concrete MarkupExtension, a resolved return
    type other than object, and a typeof argument naming another type.
   */
  lemma Wpf0081Condition(f: Facts)
    ensures var argumentType := TypeOfArgument(f.arguments, 0, "returnType");
            WithId(Diagnose(f), "WPF0081") != [] <==>
              && Analysed(f) && f.attributeType == MarkupExtensionReturnTypeAttribute
              && f.containingType.Some? && !f.containingType.value.isAbstract && f.containingType.value.isMarkupExtension
              && f.markupReturnType.Some? && f.markupReturnType.value != ObjectType
              && argumentType.Some? && argumentType.value != f.markupReturnType.value
  {
    if Analysed(f) && f.attributeType == MarkupExtensionReturnTypeAttribute {
      OwnRule(f, "WPF0081");
    } else if Analysed(f) {
      OnlyOwnAttributeType(f, "WPF0081", MarkupExtensionReturnTypeAttribute);
    }
  }

  /**
    WPF0051 is reported exactly when the clrNamespace argument is a constant
    and no namespace symbol whose name ends it displays as that constant.
   */
  lemma Wpf0051Condition(f: Facts)
    ensures var ns := ConstantArgument(f.arguments, 1, ClrNamespaceArgumentName);
            WithId(Diagnose(f), "WPF0051") != [] <==>
              && Analysed(f) && f.attributeType == XmlnsDefinitionAttribute && ns.Some?
              && forall x :: x in f.namespaces && x.name != "" && EndsWith(ns.value, x.name) ==> x.display != ns.value
  {
    if Analysed(f) && f.attributeType == XmlnsDefinitionAttribute {
      OwnRule(f, "WPF0051");
    } else if Analysed(f) {
      OnlyOwnAttributeType(f, "WPF0051", XmlnsDefinitionAttribute);
    }
  }
}
