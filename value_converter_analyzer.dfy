/**
  ValueConverterAnalyzer: checks on a class implementing IValueConverter or
  IMultiValueConverter.
  WPF0070: a converter without state exposes a shared default instance;
  WPF0074: a default member holds an instance of the converter itself;
  WPF0071 / WPF0073: an IValueConverter carries [ValueConversion];
  WPF0072: the attribute's types are the ones Convert converts between.
 */
module ValueConverterAnalyzer {
  import opened Host
  import opened ValueConversion

  /** Everything the semantic model answers about one class declaration. */
  datatype Facts = Facts(
    excluded: bool,
    isClass: bool,                                  // a named type declared by a class declaration
    typeId: TypeId,
    isValueConverter: bool,                         // assignable to IValueConverter
    isMultiValueConverter: bool,                    // assignable to IMultiValueConverter
    isAbstract: bool,
    accessibility: Accessibility,
    isMarkupExtension: bool,
    defaults: Option<seq<DefaultMember>>,           // TryGetDefaultFieldsOrProperties
    hasVirtualOrAbstractOrProtectedMembers: bool,
    hasConstructorWithParameters: bool,
    hasMutableInstanceMembers: bool,
    valueConversion: Option<seq<Argument>>,         // the [ValueConversion] attribute's arguments, when present
    conversionTypes: Option<ConversionTypes>)       // TryGetConversionTypes

  predicate Eligible(f: Facts) {
    && !f.excluded
    && f.isClass
    && (f.isValueConverter || f.isMultiValueConverter)
    && !f.isAbstract
    && f.accessibility != Private
    && f.accessibility != Protected
  }

  /** A default member whose assigned value is of another type than the converter. */
  predicate WrongDefault(typeId: TypeId, m: DefaultMember) {
    m.assignedValueType.Some? && m.assignedValueType.value != typeId
  }

  /** WPF0074 for each default member of `members` that holds a value of the wrong type, in order. */
  function WrongDefaults(typeId: TypeId, members: seq<DefaultMember>): (r: seq<Diagnostic>)
    ensures forall d :: d in r ==> d.id == "WPF0074"
    ensures forall d :: d in r <==> exists i :: 0 <= i < |members| && WrongDefault(typeId, members[i])
                                                && d == Diagnostic("WPF0074", DefaultMemberValue(i), [], map[])
  {
    if members == [] then []
    else
      var n := |members| - 1;
      var front := WrongDefaults(typeId, members[..n]);
      assert forall i :: 0 <= i < n ==> members[..n][i] == members[i];
      front + (if WrongDefault(typeId, members[n]) then [Diagnostic("WPF0074", DefaultMemberValue(n), [], map[])] else [])
  }

  /** The default-instance rules: WPF0074 when there are default members, WPF0070 otherwise. */
  function DefaultRules(f: Facts): (r: seq<Diagnostic>)
    ensures forall d :: d in r ==> d.id in {"WPF0070", "WPF0074"}
  {
    if f.isMarkupExtension then []
    else match f.defaults
      case Some(members) => WrongDefaults(f.typeId, members)
      case None =>
        if !f.hasVirtualOrAbstractOrProtectedMembers && !f.hasConstructorWithParameters && !f.hasMutableInstanceMembers then
          [Diagnostic("WPF0070", Identifier, [], map[])]
        else []
  }

  /** WPF0072 for the sourceType argument; an unknown or object source type is not checked. */
  function SourceRule(args: seq<Argument>, source: Option<TypeId>): (r: seq<Diagnostic>)
    ensures forall d :: d in r ==> d.id == "WPF0072"
  {
    if source.Some? && source.value != ObjectType then TypeOfMismatch(args, 0, "sourceType", source) else []
  }

  /** The [ValueConversion] rules of an IValueConverter. */
  function ConversionRules(f: Facts): (r: seq<Diagnostic>)
    ensures forall d :: d in r ==> d.id in {"WPF0071", "WPF0072", "WPF0073"}
  {
    match f.valueConversion
    case Some(args) =>
      (match f.conversionTypes
       case Some(types) => SourceRule(args, types.source) + TypeOfMismatch(args, 1, "targetType", types.target)
       case None => [])
    case None =>
      if f.conversionTypes.Some? then [Diagnostic("WPF0071", Identifier, [], map[])]
      else [Diagnostic("WPF0073", Identifier, [], map[])]
  }

  /** Everything `Handle` reports for one class declaration, in reporting order. */
  function Diagnose(f: Facts): seq<Diagnostic> {
    if !Eligible(f) then []
    else DefaultRules(f) + (if f.isValueConverter then ConversionRules(f) else [])
  }

  /** The analyzer's node action, reporting through the host's sink. */
  method Handle(f: Facts, sink: DiagnosticSink)
    modifies sink
    ensures sink.reported == old(sink.reported) + Diagnose(f)
  {
    if !f.excluded && f.isClass && (f.isValueConverter || f.isMultiValueConverter) &&
       !f.isAbstract && f.accessibility != Private && f.accessibility != Protected {
      ghost var start := sink.reported;
      if !f.isMarkupExtension {
        if f.defaults.Some? {
          ReportWrongDefaults(f.typeId, f.defaults.value, sink);
        } else if !f.hasVirtualOrAbstractOrProtectedMembers && !f.hasConstructorWithParameters &&
                  !f.hasMutableInstanceMembers {
          sink.Report(Diagnostic("WPF0070", Identifier, [], map[]));
        }
      }
      assert sink.reported == start + DefaultRules(f);

      if f.isValueConverter {
        ReportConversion(f, sink);
      }
    }
  }

  /** The loop over the default members: one WPF0074 per member holding a value of another type. */
  method ReportWrongDefaults(typeId: TypeId, defaults: seq<DefaultMember>, sink: DiagnosticSink)
    modifies sink
    ensures sink.reported == old(sink.reported) + WrongDefaults(typeId, defaults)
  {
    ghost var start := sink.reported;
    for i := 0 to |defaults|
      invariant sink.reported == start + WrongDefaults(typeId, defaults[..i])
    {
      assert defaults[..i + 1][..i] == defaults[..i];
      var assignedType := defaults[i].assignedValueType;
      if assignedType.Some? && assignedType.value != typeId {
        sink.Report(Diagnostic("WPF0074", DefaultMemberValue(i), [], map[]));
      }
    }
    assert defaults[..|defaults|] == defaults;
  }

  method ReportConversion(f: Facts, sink: DiagnosticSink)
    modifies sink
    ensures sink.reported == old(sink.reported) + ConversionRules(f)
  {
    if f.valueConversion.Some? {
      var args := f.valueConversion.value;
      if f.conversionTypes.Some? {
        var sourceType := f.conversionTypes.value.source;
        var targetType := f.conversionTypes.value.target;
        ghost var start := sink.reported;
        var arg := FoundExpression(args, 0, "sourceType");
        if sourceType.Some? && sourceType.value != ObjectType && arg.Some? &&
           arg.value.TypeOf? && arg.value.typeArgument.Some? && arg.value.typeArgument.value != sourceType.value {
          sink.Report(Diagnostic("WPF0072", ArgumentNode("sourceType"), [TypeText(sourceType)], map[]));
        }
        assert sink.reported == start + SourceRule(args, sourceType);

        arg := FoundExpression(args, 1, "targetType");
        if arg.Some? && arg.value.TypeOf? && arg.value.typeArgument.Some? && arg.value.typeArgument != targetType {
          sink.Report(Diagnostic("WPF0072", ArgumentNode("targetType"), [TypeText(targetType)], map[]));
        }
      }
    } else {
      if f.conversionTypes.Some? {
        sink.Report(Diagnostic("WPF0071", Identifier, [], map[]));
      } else {
        sink.Report(Diagnostic("WPF0073", Identifier, [], map[]));
      }
    }
  }

  // ---------------------------------------------------------------------
  // Properties of the rules

  /** The pieces of `Diagnose`, filtered to one id. */
  lemma {:induction false} DiagnoseById(f: Facts, id: string)
    ensures WithId(Diagnose(f), id) ==
              if !Eligible(f) then []
              else if id in {"WPF0070", "WPF0074"} then WithId(DefaultRules(f), id)
              else if id in {"WPF0071", "WPF0072", "WPF0073"} && f.isValueConverter then WithId(ConversionRules(f), id)
              else []
  {
    if Eligible(f) {
      var c := if f.isValueConverter then ConversionRules(f) else [];
      WithIdAppend(DefaultRules(f), c, id);
      if id in {"WPF0070", "WPF0074"} {
        WithIdAbsent(c, id);
      } else {
        WithIdAbsent(DefaultRules(f), id);
        if !(id in {"WPF0071", "WPF0072", "WPF0073"}) {
          WithIdAbsent(c, id);
        }
      }
    }
  }

  /** Nothing is reported for an abstract, private or protected class, or one that is not a converter. */
  lemma IneligibleIsSilent(f: Facts)
    requires !Eligible(f)
    ensures Diagnose(f) == []
  {
  }

  /**
    For a converter that is not a MarkupExtension and has default members,
    WPF0074 is reported once for each member holding a value of another type,
    at that value.
   */
  lemma Wpf0074PerWrongDefault(f: Facts)
    requires Eligible(f) && !f.isMarkupExtension && f.defaults.Some?
    ensures forall d :: d in WithId(Diagnose(f), "WPF0074") <==>
              exists i :: 0 <= i < |f.defaults.value| && WrongDefault(f.typeId, f.defaults.value[i])
                          && d == Diagnostic("WPF0074", DefaultMemberValue(i), [], map[])
  {
    DiagnoseById(f, "WPF0074");
    WithIdAll(DefaultRules(f), "WPF0074");
  }

  /**
    WPF0070 is reported exactly for a converter that is not a MarkupExtension
    and has no default members, no virtual, abstract or protected members, no
    constructor with parameters and no mutable instance members; it never
    comes with a WPF0074.
   */
  lemma Wpf0070Condition(f: Facts)
    ensures WithId(Diagnose(f), "WPF0070") != [] <==>
              && Eligible(f) && !f.isMarkupExtension && f.defaults.None?
              && !f.hasVirtualOrAbstractOrProtectedMembers && !f.hasConstructorWithParameters && !f.hasMutableInstanceMembers
    ensures WithId(Diagnose(f), "WPF0070") == [] || WithId(Diagnose(f), "WPF0074") == []
  {
    DiagnoseById(f, "WPF0070");
    DiagnoseById(f, "WPF0074");
    if Eligible(f) && !f.isMarkupExtension {
      if f.defaults.Some? {
        WithIdAbsent(DefaultRules(f), "WPF0070");
      } else {
        WithIdAbsent(DefaultRules(f), "WPF0074");
        if DefaultRules(f) != [] {
          assert DefaultRules(f)[0] in WithId(DefaultRules(f), "WPF0070");
        }
      }
    }
  }

  /**
    With [ValueConversion] and resolved conversion types, the source and
    target checks are independent: each reports at its own argument with the
    expected type, and the source check skips an unknown or object source type.
   */
  lemma Wpf0072Checks(f: Facts)
    requires Eligible(f) && f.isValueConverter && f.valueConversion.Some? && f.conversionTypes.Some?
    ensures var args := f.valueConversion.value;
            var types := f.conversionTypes.value;
            var source := TypeOfArgument(args, 0, "sourceType");
            var target := TypeOfArgument(args, 1, "targetType");
            && (Diagnostic("WPF0072", ArgumentNode("sourceType"), [TypeText(types.source)], map[]) in Diagnose(f) <==>
                  types.source.Some? && types.source.value != ObjectType && source.Some? && source != types.source)
            && (Diagnostic("WPF0072", ArgumentNode("targetType"), [TypeText(types.target)], map[]) in Diagnose(f) <==>
                  target.Some? && target != types.target)
            && |WithId(Diagnose(f), "WPF0072")| <= 2
  {
    var args := f.valueConversion.value;
    var types := f.conversionTypes.value;
    DiagnoseById(f, "WPF0072");
    var s := SourceRule(args, types.source);
    var t := TypeOfMismatch(args, 1, "targetType", types.target);
    WithIdAll(s + t, "WPF0072");
    var d := DefaultRules(f);
    assert Diagnose(f) == d + (s + t);
    assert forall x :: x in d ==> x.location == Identifier || x.location.DefaultMemberValue?;
  }

  /** An unknown or object source type is never reported. */
  lemma ObjectSourceIsNotChecked(f: Facts)
    requires Eligible(f) && f.conversionTypes.Some?
    requires f.conversionTypes.value.source.None? || f.conversionTypes.value.source == Some(ObjectType)
    ensures forall d :: d in Diagnose(f) ==> d.location != ArgumentNode("sourceType")
  {
    if f.isValueConverter && f.valueConversion.Some? {
      var d := DefaultRules(f);
      var s := SourceRule(f.valueConversion.value, f.conversionTypes.value.source);
      var t := TypeOfMismatch(f.valueConversion.value, 1, "targetType", f.conversionTypes.value.target);
      assert s == [];
      assert Diagnose(f) == d + (s + t);
    }
  }

  /**
    An IValueConverter without [ValueConversion] gets exactly one of WPF0071
    (conversion types known) or WPF0073 (unknown); a converter that is only an
    IMultiValueConverter gets neither.
   */
  lemma MissingAttribute(f: Facts)
    ensures WithId(Diagnose(f), "WPF0071") != [] <==>
              Eligible(f) && f.isValueConverter && f.valueConversion.None? && f.conversionTypes.Some?
    ensures WithId(Diagnose(f), "WPF0073") != [] <==>
              Eligible(f) && f.isValueConverter && f.valueConversion.None? && f.conversionTypes.None?
  {
    DiagnoseById(f, "WPF0071");
    DiagnoseById(f, "WPF0073");
    if Eligible(f) && f.isValueConverter {
      var c := ConversionRules(f);
      if f.valueConversion.None? {
        assert c[0] in WithId(c, c[0].id);
        if f.conversionTypes.Some? {
          WithIdAbsent(c, "WPF0073");
        } else {
          WithIdAbsent(c, "WPF0071");
        }
      } else {
        assert forall d :: d in c ==> d.id == "WPF0072";
        WithIdAbsent(c, "WPF0071");
        WithIdAbsent(c, "WPF0073");
      }
    }
  }
}
