/**
  ValueConverterAnalyzer (first generation): WPF0070, WPF0071, WPF0072 and
  WPF0073 on a converter class. Unlike the current analyzer it has no
  WPF0074, does not exempt a converter with a parameterised constructor from
  WPF0070, and checks the source type even when it is object or unknown.
 */
module LegacyValueConverterAnalyzer {
  import opened Host
  import opened ValueConversion

  /** Everything the semantic model answers about one class declaration. */
  datatype Facts = Facts(
    excluded: bool,
    isClass: bool,
    isValueConverter: bool,                         // type.Is(IValueConverter)
    isMultiValueConverter: bool,                    // type.Is(IMultiValueConverter)
    isAbstract: bool,
    accessibility: Accessibility,
    isMarkupExtension: bool,
    hasMutableInstanceMembers: bool,
    hasVirtualOrAbstractOrProtectedMembers: bool,
    hasDefaultFieldsOrProperties: bool,             // TryGetDefaultFieldsOrProperties
    valueConversion: Option<seq<Argument>>,
    conversionTypes: Option<ConversionTypes>)

  predicate Eligible(f: Facts) {
    && !f.excluded
    && f.isClass
    && (f.isValueConverter || f.isMultiValueConverter)
    && !f.isAbstract
    && f.accessibility != Private
    && f.accessibility != Protected
  }

  /** WPF0070 for a stateless converter without a default member. */
  function DefaultFieldRule(f: Facts): (r: seq<Diagnostic>)
    ensures forall d :: d in r ==> d.id == "WPF0070" && d.location == Identifier
  {
    if !f.isMarkupExtension && !f.hasMutableInstanceMembers && !f.hasVirtualOrAbstractOrProtectedMembers &&
       !f.hasDefaultFieldsOrProperties then
      [Diagnostic("WPF0070", Identifier, [], map[])]
    else []
  }

  /** The [ValueConversion] rules of an IValueConverter. */
  function ConversionRules(f: Facts): (r: seq<Diagnostic>)
    ensures forall d :: d in r ==> d.id in {"WPF0071", "WPF0072", "WPF0073"}
  {
    match f.valueConversion
    case Some(args) =>
      (match f.conversionTypes
       case Some(types) => TypeOfMismatch(args, 0, "sourceType", types.source) + TypeOfMismatch(args, 1, "targetType", types.target)
       case None => [])
    case None =>
      if f.conversionTypes.Some? then [Diagnostic("WPF0071", Identifier, [], map[])]
      else [Diagnostic("WPF0073", Identifier, [], map[])]
  }

  /** Everything `HandleDeclaration` reports for one class declaration, in reporting order. */
  function Diagnose(f: Facts): seq<Diagnostic> {
    if !Eligible(f) then []
    else DefaultFieldRule(f) + (if f.isValueConverter then ConversionRules(f) else [])
  }

  /** The analyzer's node action, reporting through the host's sink. */
  method HandleDeclaration(f: Facts, sink: DiagnosticSink)
    modifies sink
    ensures sink.reported == old(sink.reported) + Diagnose(f)
  {
    if f.excluded {
      return;
    }

    if f.isClass && (f.isValueConverter || f.isMultiValueConverter) && !f.isAbstract &&
       f.accessibility != Private && f.accessibility != Protected {
      if !f.isMarkupExtension && !f.hasMutableInstanceMembers && !f.hasVirtualOrAbstractOrProtectedMembers &&
         !f.hasDefaultFieldsOrProperties {
        sink.Report(Diagnostic("WPF0070", Identifier, [], map[]));
      }

      if f.isValueConverter {
        ReportConversion(f, sink);
      }
    }
  }

  method ReportConversion(f: Facts, sink: DiagnosticSink)
    modifies sink
    ensures sink.reported == old(sink.reported) + ConversionRules(f)
  {
    if f.valueConversion.Some? {
      var args := f.valueConversion.value;
      if f.conversionTypes.Some? {
        var sourceType := f.conversionTypes.value.source;
        var targetType := f.conversionTypes.value.target;
        ghost var start := sink.reported;
        var arg := FoundExpression(args, 0, "sourceType");
        if arg.Some? && arg.value.TypeOf? && arg.value.typeArgument.Some? && arg.value.typeArgument != sourceType {
          sink.Report(Diagnostic("WPF0072", ArgumentNode("sourceType"), [TypeText(sourceType)], map[]));
        }
        assert sink.reported == start + TypeOfMismatch(args, 0, "sourceType", sourceType);

        arg := FoundExpression(args, 1, "targetType");
        if arg.Some? && arg.value.TypeOf? && arg.value.typeArgument.Some? && arg.value.typeArgument != targetType {
          sink.Report(Diagnostic("WPF0072", ArgumentNode("targetType"), [TypeText(targetType)], map[]));
        }
      }
    } else {
      if f.conversionTypes.Some? {
        sink.Report(Diagnostic("WPF0071", Identifier, [], map[]));
      } else {
        sink.Report(Diagnostic("WPF0073", Identifier, [], map[]));
      }
    }
  }

  // ---------------------------------------------------------------------
  // Properties of the rules

  /** Nothing is reported for an abstract, private or protected class, or one that is not a converter. */
  lemma IneligibleIsSilent(f: Facts)
    requires !Eligible(f)
    ensures Diagnose(f) == []
  {
  }

  /**
    WPF0070 is reported, at most once and at the class name, exactly for a
    converter that is not a MarkupExtension, has no mutable instance members,
    no virtual, abstract or protected members and no default member;
    constructors play no part.
   */
  lemma Wpf0070Condition(f: Facts)
    ensures WithId(Diagnose(f), "WPF0070") ==
              if && Eligible(f) && !f.isMarkupExtension && !f.hasMutableInstanceMembers
                 && !f.hasVirtualOrAbstractOrProtectedMembers && !f.hasDefaultFieldsOrProperties then
                [Diagnostic("WPF0070", Identifier, [], map[])]
              else []
  {
    if Eligible(f) {
      var c := if f.isValueConverter then ConversionRules(f) else [];
      WithIdAppend(DefaultFieldRule(f), c, "WPF0070");
      WithIdAbsent(c, "WPF0070");
      WithIdAll(DefaultFieldRule(f), "WPF0070");
    }
  }

  /**
    With [ValueConversion] and resolved conversion types, each argument is
    checked against its inferred type, with no exemption for object or an
    unknown type; the two checks are independent.
   */
  lemma Wpf0072Checks(f: Facts)
    requires Eligible(f) && f.isValueConverter && f.valueConversion.Some? && f.conversionTypes.Some?
    ensures var args := f.valueConversion.value;
            var types := f.conversionTypes.value;
            var source := TypeOfArgument(args, 0, "sourceType");
            var target := TypeOfArgument(args, 1, "targetType");
            && (Diagnostic("WPF0072", ArgumentNode("sourceType"), [TypeText(types.source)], map[]) in Diagnose(f) <==>
                  source.Some? && source != types.source)
            && (Diagnostic("WPF0072", ArgumentNode("targetType"), [TypeText(types.target)], map[]) in Diagnose(f) <==>
                  target.Some? && target != types.target)
  {
    var args := f.valueConversion.value;
    var types := f.conversionTypes.value;
    assert Diagnose(f) == DefaultFieldRule(f) + (TypeOfMismatch(args, 0, "sourceType", types.source) + TypeOfMismatch(args, 1, "targetType", types.target));
  }

  /**
    An IValueConverter without [ValueConversion] gets WPF0071 when the
    conversion types are known and WPF0073 otherwise, at the class name;
    a converter that is only an IMultiValueConverter gets neither.
   */
  lemma MissingAttribute(f: Facts)
    ensures Diagnostic("WPF0071", Identifier, [], map[]) in Diagnose(f) <==>
              Eligible(f) && f.isValueConverter && f.valueConversion.None? && f.conversionTypes.Some?
    ensures Diagnostic("WPF0073", Identifier, [], map[]) in Diagnose(f) <==>
              Eligible(f) && f.isValueConverter && f.valueConversion.None? && f.conversionTypes.None?
  {
    if Eligible(f) {
      var c := if f.isValueConverter then ConversionRules(f) else [];
      assert Diagnose(f) == DefaultFieldRule(f) + c;
    }
  }

  /**
    The first generation reports a typeof(object) source argument that the
    current analyzer skips: with the source inferred as object and a
    typeof(string) source argument, only this analyzer reports WPF0072.
   */
  lemma ObjectSourceIsChecked(f: Facts)
    requires Eligible(f) && f.isValueConverter && f.hasDefaultFieldsOrProperties
    requires f.valueConversion == Some([Argument(None, TypeOf(Some("System.String")), "typeof(string)")])
    requires f.conversionTypes == Some(ConversionTypes(Some(ObjectType), None))
    ensures Diagnose(f) == [Diagnostic("WPF0072", ArgumentNode("sourceType"), [ObjectType], map[])]
  {
    var args := f.valueConversion.value;
    assert FindNamed(args, "sourceType", 0) == None;
    assert FindNamed(args, "targetType", 0) == None;
    assert FoundExpression(args, 1, "targetType") == None;
  }
}
