/**
  WPF0082ConstructorArgument (first generation): the name given in
  `[ConstructorArgument("name")]` must be the name of the constructor
  parameter the property is assigned from. A stand-alone analyzer on
  attribute nodes.
 */
module LegacyConstructorArgument {
  import opened Host

  const DiagnosticId := "WPF0082"
  const Rule := Descriptor(DiagnosticId, Warning, "[ConstructorArgument] must match. Expected: {0}")

  /** Everything the semantic model answers about one attribute. */
  datatype Facts = Facts(
    excluded: bool,
    isAttribute: bool,
    isConstructorArgumentAttribute: bool,  // Attribute.IsType(ConstructorArgumentAttribute)
    isMatch: Option<bool>,                 // ConstructorArgument.IsMatch: unknown when the parameter does not resolve
    parameterName: string)                 // its out parameter: the name of the constructor parameter

  /** Everything `HandleDeclaration` reports for one attribute: at most one WPF0082. */
  function Diagnose(f: Facts): (r: seq<Diagnostic>)
    ensures |r| <= 1
    ensures forall d :: d in r ==> d.id == DiagnosticId
  {
    if f.excluded then []
    else if f.isAttribute && f.isConstructorArgumentAttribute && f.isMatch == Some(false) then
      [Diagnostic(DiagnosticId, ArgumentNode("argumentName"), [f.parameterName], map[])]
    else []
  }

  /** The analyzer's node action, reporting through the host's sink. */
  method HandleDeclaration(f: Facts, sink: DiagnosticSink)
    modifies sink
    ensures sink.reported == old(sink.reported) + Diagnose(f)
  {
    if f.excluded {
      return;
    }

    if f.isAttribute && f.isConstructorArgumentAttribute && f.isMatch == Some(false) {
      sink.Report(Diagnostic(Rule.id, ArgumentNode("argumentName"), [f.parameterName], map[]));
    }
  }

  // ---------------------------------------------------------------------
  // Properties of the rule

  /**
    WPF0082 is reported exactly when the match is definitely false, at the
    attribute's argument, with the expected parameter name as the message
    argument and no properties.
   */
  lemma Wpf0082Condition(f: Facts)
    ensures Diagnose(f) != [] <==>
              !f.excluded && f.isAttribute && f.isConstructorArgumentAttribute && f.isMatch == Some(false)
    ensures Diagnose(f) != [] ==>
              Diagnose(f)[0].location == ArgumentNode("argumentName") && Diagnose(f)[0].args == [f.parameterName]
              && Diagnose(f)[0].properties == map[]
  {
  }

  /** An unknown match result never reports, whatever the attribute. */
  lemma UnknownMatchIsSilent(f: Facts)
    requires f.isMatch.None?
    ensures Diagnose(f) == []
  {
  }

  /** A matching name produces nothing. */
  lemma MatchIsSilent(f: Facts)
    requires f.isMatch == Some(true)
    ensures Diagnose(f) == []
  {
  }

  /** Attributes other than [ConstructorArgument] produce nothing, whatever the match oracle says. */
  lemma OtherAttributesAreSilent(f: Facts)
    requires !f.isConstructorArgumentAttribute
    ensures Diagnose(f) == []
  {
  }
}
