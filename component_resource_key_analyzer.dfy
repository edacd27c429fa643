/**
  ComponentResourceKeyAnalyzer: a `new ComponentResourceKey(...)` that
  initialises a field or property should key on the containing type (WPF0140)
  and on the member's name (WPF0141).
 */
module ComponentResourceKeyAnalyzer {
  import opened Host

  /** Everything the semantic model answers about one object creation. */
  datatype Facts = Facts(
    excluded: bool,
    hasArgumentList: bool,
    constructorParameters: Option<seq<string>>,  // the ComponentResourceKey constructor's parameter names, when it resolves
    member: Option<string>,                      // FieldOrProperty.TryCreate(ContainingSymbol): the member's name
    containingType: TypeId,                      // ContainingSymbol.ContainingType
    display: (TypeId, nat) -> string,            // ToMinimalDisplayString(type, position)
    spanStart: nat,                              // the object creation's span start
    arguments: seq<Argument>)

  predicate Eligible(f: Facts) {
    !f.excluded && f.hasArgumentList && f.constructorParameters.Some? && f.member.Some?
  }

  /** The argument list proposed for a parameterless creation. */
  function ArgumentListText(containingType: string, member: string): string {
    "typeof(" + containingType + "), nameof(" + member + ")"
  }

  /** The resource id proposed for WPF0141. */
  function KeyText(member: string): string {
    "nameof(" + member + ")"
  }

  /** `IMethodSymbol.TryFindParameter(name)`: the position of the parameter called `name`. */
  function ParameterIndex(parameters: seq<string>, name: string): (r: Option<nat>)
    ensures r.Some? ==> r.value < |parameters| && parameters[r.value] == name
    ensures r.None? ==> name !in parameters
  {
    if parameters == [] then None
    else if parameters[0] == name then Some(0)
    else match ParameterIndex(parameters[1..], name)
      case Some(i) => Some(i + 1)
      case None => None
  }

  /** `TryFindArgument(parameter)`: the argument passed for the constructor parameter `name`. */
  function ArgumentFor(f: Facts, name: string): (r: Option<nat>)
    requires f.constructorParameters.Some?
    ensures r.Some? ==> r.value < |f.arguments|
  {
    match ParameterIndex(f.constructorParameters.value, name)
    case Some(i) => FindArgument(f.arguments, i, name)
    case None => None
  }

  /** WPF0140 at the typeInTargetAssembly argument, when its typeof names another type. */
  function TypeRule(f: Facts): (r: seq<Diagnostic>)
    requires f.constructorParameters.Some?
    ensures forall d :: d in r ==> d.id == "WPF0140"
  {
    match ArgumentFor(f, "typeInTargetAssembly")
    case Some(i) =>
      (match f.arguments[i].expression
       case TypeOf(Some(t)) =>
         if t != f.containingType then
           [Diagnostic("WPF0140", ArgumentNode("typeInTargetAssembly"), [f.display(f.containingType, f.spanStart)], map[])]
         else []
       case _ => [])
    case None => []
  }

  /** WPF0141 at the resourceId argument, when it is a constant other than the member's name. */
  function KeyRule(f: Facts, member: string): (r: seq<Diagnostic>)
    requires f.constructorParameters.Some?
    ensures forall d :: d in r ==> d.id == "WPF0141"
  {
    match ArgumentFor(f, "resourceId")
    case Some(i) =>
      (match f.arguments[i].expression
       case StringConstant(name) =>
         if name != member then
           [Diagnostic("WPF0141", ArgumentNode("resourceId"), [KeyText(member)], map["ArgumentSyntax" := KeyText(member)])]
         else []
       case _ => [])
    case None => []
  }

  /** Everything `Handle` reports for one object creation, in reporting order. */
  function Diagnose(f: Facts): seq<Diagnostic> {
    if !Eligible(f) then []
    else if |f.constructorParameters.value| == 0 then
      var text := ArgumentListText(f.display(f.containingType, f.spanStart), f.member.value);
      [Diagnostic("WPF0140", ArgumentList, [text], map["ArgumentListSyntax" := text])]
    else TypeRule(f) + KeyRule(f, f.member.value)
  }

  /** The analyzer's node action, reporting through the host's sink. */
  method Handle(f: Facts, sink: DiagnosticSink)
    modifies sink
    ensures sink.reported == old(sink.reported) + Diagnose(f)
  {
    if !f.excluded && f.hasArgumentList && f.constructorParameters.Some? && f.member.Some? {
      var member := f.member.value;
      if |f.constructorParameters.value| == 0 {
        var containingTypeString := f.display(f.containingType, f.spanStart);
        var argumentListText := "typeof(" + containingTypeString + "), nameof(" + member + ")";
        sink.Report(Diagnostic("WPF0140", ArgumentList, [argumentListText], map["ArgumentListSyntax" := argumentListText]));
      } else {
        ghost var start := sink.reported;
        var arg := ArgumentFor(f, "typeInTargetAssembly");
        if arg.Some? && f.arguments[arg.value].expression.TypeOf? &&
           f.arguments[arg.value].expression.typeArgument.Some? &&
           f.arguments[arg.value].expression.typeArgument.value != f.containingType {
          sink.Report(Diagnostic("WPF0140", ArgumentNode("typeInTargetAssembly"), [f.display(f.containingType, f.spanStart)], map[]));
        }
        assert sink.reported == start + TypeRule(f);

        arg := ArgumentFor(f, "resourceId");
        if arg.Some? && f.arguments[arg.value].expression.StringConstant? &&
           f.arguments[arg.value].expression.value != member {
          var keyText := "nameof(" + member + ")";
          sink.Report(Diagnostic("WPF0141", ArgumentNode("resourceId"), [keyText], map["ArgumentSyntax" := keyText]));
        }
      }
    }
  }

  // ---------------------------------------------------------------------
  // Properties of the rules

  /** The argument the typeInTargetAssembly check reads, when the constructor has one. */
  function TypeArgument(f: Facts): Option<Expression>
    requires f.constructorParameters.Some?
  {
    match ArgumentFor(f, "typeInTargetAssembly")
    case Some(i) => Some(f.arguments[i].expression)
    case None => None
  }

  /** The argument the resourceId check reads, when the constructor has one. */
  function KeyArgument(f: Facts): Option<Expression>
    requires f.constructorParameters.Some?
  {
    match ArgumentFor(f, "resourceId")
    case Some(i) => Some(f.arguments[i].expression)
    case None => None
  }

  /** Nothing is reported without an argument list, a resolved constructor and a field or property to key. */
  lemma IneligibleIsSilent(f: Facts)
    requires !Eligible(f)
    ensures Diagnose(f) == []
  {
  }

  /**
    A parameterless creation gets exactly one WPF0140, on the argument list,
    proposing `typeof(ContainingType), nameof(Member)` and nothing else.
   */
  lemma ParameterlessProposal(f: Facts)
    requires Eligible(f) && f.constructorParameters.value == []
    ensures var text := "typeof(" + f.display(f.containingType, f.spanStart) + "), nameof(" + f.member.value + ")";
            Diagnose(f) == [Diagnostic("WPF0140", ArgumentList, [text], map["ArgumentListSyntax" := text])]
  {
  }

  /** The proposal determines the member it names: two members give two different texts. */
  lemma {:induction false} ProposalNamesTheMember(t: string, m1: string, m2: string)
    requires ArgumentListText(t, m1) == ArgumentListText(t, m2)
    ensures m1 == m2
  {
    var p := "typeof(" + t + "), nameof(";
    var a := ArgumentListText(t, m1);
    var b := ArgumentListText(t, m2);
    assert a == p + m1 + ")";
    assert b == p + m2 + ")";
    assert |m1| == |m2|;
    assert m1 == a[|p|..|a| - 1];
    assert m2 == b[|p|..|b| - 1];
  }

  /**
    With constructor parameters, WPF0140 is reported at the
    typeInTargetAssembly argument exactly when it is a typeof of a type other
    than the containing type.
   */
  lemma Wpf0140Condition(f: Facts)
    requires Eligible(f) && f.constructorParameters.value != []
    ensures WithId(Diagnose(f), "WPF0140") ==
              if TypeArgument(f).Some? && TypeArgument(f).value.TypeOf? && TypeArgument(f).value.typeArgument.Some?
                 && TypeArgument(f).value.typeArgument.value != f.containingType then
                [Diagnostic("WPF0140", ArgumentNode("typeInTargetAssembly"), [f.display(f.containingType, f.spanStart)], map[])]
              else []
  {
    WithIdAppend(TypeRule(f), KeyRule(f, f.member.value), "WPF0140");
    WithIdPiece(TypeRule(f), "WPF0140", "WPF0140");
    WithIdPiece(KeyRule(f, f.member.value), "WPF0141", "WPF0140");
  }

  /**
    WPF0141 is reported exactly when the resourceId argument is a constant
    other than the member's name, proposing `nameof(Member)`; never for a
    parameterless creation.
   */
  lemma Wpf0141Condition(f: Facts)
    ensures WithId(Diagnose(f), "WPF0141") ==
              if Eligible(f) && f.constructorParameters.value != [] && KeyArgument(f).Some?
                 && KeyArgument(f).value.StringConstant? && KeyArgument(f).value.value != f.member.value then
                var keyText := "nameof(" + f.member.value + ")";
                [Diagnostic("WPF0141", ArgumentNode("resourceId"), [keyText], map["ArgumentSyntax" := keyText])]
              else []
  {
    if Eligible(f) && f.constructorParameters.value != [] {
      WithIdAppend(TypeRule(f), KeyRule(f, f.member.value), "WPF0141");
      WithIdPiece(TypeRule(f), "WPF0140", "WPF0141");
      WithIdPiece(KeyRule(f, f.member.value), "WPF0141", "WPF0141");
    }
  }

  /** The two checks with constructor parameters are independent: both can fire on one creation. */
  lemma BothChecksCanFire(f: Facts)
    requires Eligible(f) && f.constructorParameters.value == ["typeInTargetAssembly", "resourceId"]
    requires f.arguments == [Argument(None, TypeOf(Some("Other")), "typeof(Other)"), Argument(None, StringConstant("Key"), "\"Key\"")]
    requires f.containingType != "Other" && f.member.value != "Key"
    ensures |Diagnose(f)| == 2 && Diagnose(f)[0].id == "WPF0140" && Diagnose(f)[1].id == "WPF0141"
  {
    assert ParameterIndex(f.constructorParameters.value, "resourceId") == Some(1);
  }
}
