/**
  ClrMethodDeclarationAnalyzer: the static `SetFoo(element, value)` /
  `GetFoo(element)` accessors of an attached property.
  WPF0004: the name is "Set"/"Get" plus the registered name; WPF0013: the value
  parameter / return type is the registered type; WPF0042: the body does
  nothing but the SetValue/GetValue call; WPF0061: a visible accessor is
  documented; WPF0033 / WPF0034: a getter carries a correct
  [AttachedPropertyBrowsableForType] attribute.
 */
module ClrMethodAnalyzer {
  import opened Host
  import opened Text

  /**
    What `ClrMethod.IsAttachedSet` / `IsAttachedGet` find: the node of the
    SetValue/GetValue call and, through the backing member it passes, the
    registered name and type when they resolve.
   */
  datatype AttachedAccessor = AttachedAccessor(call: nat, registeredName: Option<string>, registeredType: Option<TypeId>)

  /** An argument of the [AttachedPropertyBrowsableForType] attribute, with its span start. */
  datatype AttributeArgument = AttributeArgument(expression: Expression, spanStart: nat)

  datatype BrowsableAttribute = BrowsableAttribute(arguments: seq<AttributeArgument>)

  /** Everything the semantic model answers about one method declaration. */
  datatype Facts = Facts(
    excluded: bool,
    isMethod: bool,                           // a method declaration whose symbol is a method
    name: string,
    isStatic: bool,
    parameterTypes: seq<TypeId>,
    returnType: TypeId,
    accessibility: Accessibility,
    hasDocumentationComment: bool,
    body: Option<seq<Statement>>,             // the block body; None for an expression body
    attachedSet: Option<AttachedAccessor>,    // IsAttachedSet
    attachedGet: Option<AttachedAccessor>,    // IsAttachedGet
    browsable: Option<BrowsableAttribute>,    // Attribute.TryFind(AttachedPropertyBrowsableForTypeAttribute)
    assignable: set<(TypeId, TypeId)>,        // (a, b) when IsAssignableTo(a, b)
    display: (TypeId, nat) -> string,         // ToMinimalDisplayString(type, position)
    spanStart: nat)

  /** The method is a candidate at all: static, with a first parameter assignable to DependencyObject. */
  predicate Eligible(f: Facts) {
    && !f.excluded
    && f.isMethod
    && f.isStatic
    && |f.parameterTypes| >= 1
    && (f.parameterTypes[0], DependencyObjectType) in f.assignable
  }

  /** Which accessor branch the method takes; the get branch only when the set branch does not apply. */
  datatype Branch = SetBranch(accessor: AttachedAccessor) | GetBranch(accessor: AttachedAccessor) | NoBranch

  function BranchOf(f: Facts): (r: Branch)
    ensures r.SetBranch? <==> |f.parameterTypes| >= 2 && f.attachedSet.Some?
    ensures r.SetBranch? ==> r.accessor == f.attachedSet.value
    ensures r.GetBranch? <==> !(|f.parameterTypes| >= 2 && f.attachedSet.Some?) && f.attachedGet.Some?
    ensures r.GetBranch? ==> r.accessor == f.attachedGet.value
  {
    if |f.parameterTypes| >= 2 && f.attachedSet.Some? then SetBranch(f.attachedSet.value)
    else if f.attachedGet.Some? then GetBranch(f.attachedGet.value)
    else NoBranch
  }

  /** The accessor's name prefix. */
  function Prefix(b: Branch): string {
    if b.SetBranch? then "Set" else "Get"
  }

  /** WPF0004: the method's name is not `prefix + registeredName`. */
  function NameRule(f: Facts, prefix: string, registeredName: Option<string>): (r: seq<Diagnostic>)
    ensures forall d :: d in r ==> d.id == "WPF0004"
    ensures r != [] <==> registeredName.Some? && f.name != prefix + registeredName.value
    ensures r != [] ==> r == [Diagnostic("WPF0004", Identifier, [f.name, prefix + registeredName.value],
                                         map["ExpectedName" := prefix + registeredName.value])]
  {
    match registeredName
    case Some(n) =>
      if !IsParts(f.name, prefix, n) then
        [Diagnostic("WPF0004", Identifier, [f.name, prefix + n], map["ExpectedName" := prefix + n])]
      else []
    case None => []
  }

  /** WPF0013: the declared type differs from the registered type. */
  function TypeRule(location: Location, description: string, declared: TypeId, registeredType: Option<TypeId>): (r: seq<Diagnostic>)
    ensures forall d :: d in r ==> d.id == "WPF0013"
    ensures r != [] <==> registeredType.Some? && declared != registeredType.value
    ensures r != [] ==> r == [Diagnostic("WPF0013", location, [description, registeredType.value], map[])]
  {
    match registeredType
    case Some(t) => if declared != t then [Diagnostic("WPF0013", location, [description, t], map[])] else []
    case None => []
  }

  /** WPF0042: the first statement of a block body that does not contain the accessor's call. */
  function SideEffect(body: Option<seq<Statement>>, call: nat): (r: seq<Diagnostic>)
    ensures forall d :: d in r ==> d.id == "WPF0042"
    ensures r != [] <==> body.Some? && exists i :: 0 <= i < |body.value| && call !in body.value[i].invocations
    ensures r != [] ==> |r| == 1 && r[0].location.BodyStatement?
                        && var i := r[0].location.index;
                           i < |body.value| && call !in body.value[i].invocations
                           && forall j :: 0 <= j < i ==> call in body.value[j].invocations
  {
    match body
    case Some(statements) =>
      (match FirstWithout(statements, call)
       case Some(i) => [Diagnostic("WPF0042", BodyStatement(i), [], map[])]
       case None => [])
    case None => []
  }

  /** The accessibilities for which an accessor must be documented. */
  predicate Visible(a: Accessibility) {
    a in {Protected, Internal, Public}
  }

  /** WPF0061: a visible accessor without a documentation comment. */
  function Documentation(f: Facts): (r: seq<Diagnostic>)
    ensures forall d :: d in r ==> d.id == "WPF0061"
    ensures r != [] <==> Visible(f.accessibility) && !f.hasDocumentationComment
    ensures r != [] ==> r == [Diagnostic("WPF0061", Identifier, [], map[])]
  {
    if Visible(f.accessibility) && !f.hasDocumentationComment then [Diagnostic("WPF0061", Identifier, [], map[])]
    else []
  }

  /**
    WPF0033 when the getter has no [AttachedPropertyBrowsableForType];
    WPF0034 when its single typeof argument names a type that is not
    assignable to the first parameter's type.
   */
  function Browsable(f: Facts): (r: seq<Diagnostic>)
    requires |f.parameterTypes| >= 1
    ensures |r| <= 1
    ensures forall d :: d in r ==> d.id in {"WPF0033", "WPF0034"}
    ensures f.browsable.None? ==>
              r == [Diagnostic("WPF0033", Identifier, [f.display(f.parameterTypes[0], f.spanStart)], map[])]
    ensures f.browsable.Some? ==> (r != [] <==> WrongBrowsableArgument(f))
    ensures f.browsable.Some? && r != [] ==>
              var a := f.browsable.value.arguments[0];
              r == [Diagnostic("WPF0034", SingleArgument, [f.display(f.parameterTypes[0], a.spanStart)], map[])]
  {
    match f.browsable
    case None =>
      [Diagnostic("WPF0033", Identifier, [f.display(f.parameterTypes[0], f.spanStart)], map[])]
    case Some(attribute) =>
      if |attribute.arguments| == 1 then
        var argument := attribute.arguments[0];
        match argument.expression
        case TypeOf(Some(argumentType)) =>
          if (argumentType, f.parameterTypes[0]) !in f.assignable then
            [Diagnostic("WPF0034", SingleArgument, [f.display(f.parameterTypes[0], argument.spanStart)], map[])]
          else []
        case _ => []
      else []
  }

  /** The attribute has one argument, a resolved typeof whose type is not assignable to the first parameter's. */
  predicate WrongBrowsableArgument(f: Facts)
    requires |f.parameterTypes| >= 1
  {
    && f.browsable.Some?
    && |f.browsable.value.arguments| == 1
    && f.browsable.value.arguments[0].expression.TypeOf?
    && f.browsable.value.arguments[0].expression.typeArgument.Some?
    && (f.browsable.value.arguments[0].expression.typeArgument.value, f.parameterTypes[0]) !in f.assignable
  }

  /** The set branch, in reporting order: WPF0004, WPF0013, WPF0042, WPF0061. */
  function SetRules(f: Facts, a: AttachedAccessor): seq<Diagnostic>
    requires |f.parameterTypes| >= 2
  {
    NameRule(f, "Set", a.registeredName)
    + TypeRule(ParameterTypeSyntax(1), "Value type", f.parameterTypes[1], a.registeredType)
    + SideEffect(f.body, a.call)
    + Documentation(f)
  }

  /** The get branch, in reporting order: WPF0004, WPF0013, WPF0061, WPF0042, WPF0033/WPF0034. */
  function GetRules(f: Facts, a: AttachedAccessor): seq<Diagnostic>
    requires |f.parameterTypes| >= 1
  {
    NameRule(f, "Get", a.registeredName)
    + TypeRule(ReturnTypeSyntax, "Return type", f.returnType, a.registeredType)
    + Documentation(f)
    + SideEffect(f.body, a.call)
    + Browsable(f)
  }

  /** Everything `Handle` reports for one method declaration, in reporting order. */
  function Diagnose(f: Facts): seq<Diagnostic> {
    if !Eligible(f) then []
    else match BranchOf(f)
      case SetBranch(a) => SetRules(f, a)
      case GetBranch(a) => GetRules(f, a)
      case NoBranch => []
  }

  /** The analyzer's node action, reporting through the host's sink. */
  method Handle(f: Facts, sink: DiagnosticSink)
    modifies sink
    ensures sink.reported == old(sink.reported) + Diagnose(f)
  {
    if f.excluded {
      return;
    }

    if f.isMethod && f.isStatic && |f.parameterTypes| >= 1 &&
       (f.parameterTypes[0], DependencyObjectType) in f.assignable {
      if |f.parameterTypes| >= 2 && f.attachedSet.Some? {
        ReportSet(f, f.attachedSet.value, sink);
      } else if f.attachedGet.Some? {
        ReportGet(f, f.attachedGet.value, sink);
      }
    }
  }

  /** The set branch: WPF0004, WPF0013 on the value parameter, WPF0042, WPF0061. */
  method ReportSet(f: Facts, a: AttachedAccessor, sink: DiagnosticSink)
    requires |f.parameterTypes| >= 2
    modifies sink
    ensures sink.reported == old(sink.reported) + SetRules(f, a)
  {
    ReportName(f, "Set", a.registeredName, sink);
    ReportType(ParameterTypeSyntax(1), "Value type", f.parameterTypes[1], a.registeredType, sink);
    ReportSideEffect(f.body, a.call, sink);
    ReportDocumentation(f, sink);
  }

  /** The get branch: WPF0004, WPF0013 on the return type, WPF0061, WPF0042, WPF0033/WPF0034. */
  method ReportGet(f: Facts, a: AttachedAccessor, sink: DiagnosticSink)
    requires |f.parameterTypes| >= 1
    modifies sink
    ensures sink.reported == old(sink.reported) + GetRules(f, a)
  {
    ReportName(f, "Get", a.registeredName, sink);
    ReportType(ReturnTypeSyntax, "Return type", f.returnType, a.registeredType, sink);
    ReportDocumentation(f, sink);
    ReportSideEffect(f.body, a.call, sink);
    ReportBrowsable(f, sink);
  }

  method ReportName(f: Facts, prefix: string, registeredName: Option<string>, sink: DiagnosticSink)
    modifies sink
    ensures sink.reported == old(sink.reported) + NameRule(f, prefix, registeredName)
  {
    if registeredName.Some? && !IsParts(f.name, prefix, registeredName.value) {
      sink.Report(Diagnostic("WPF0004", Identifier, [f.name, prefix + registeredName.value],
                             map["ExpectedName" := prefix + registeredName.value]));
    }
  }

  method ReportType(location: Location, description: string, declared: TypeId, registeredType: Option<TypeId>, sink: DiagnosticSink)
    modifies sink
    ensures sink.reported == old(sink.reported) + TypeRule(location, description, declared, registeredType)
  {
    if registeredType.Some? && declared != registeredType.value {
      sink.Report(Diagnostic("WPF0013", location, [description, registeredType.value], map[]));
    }
  }

  method ReportDocumentation(f: Facts, sink: DiagnosticSink)
    modifies sink
    ensures sink.reported == old(sink.reported) + Documentation(f)
  {
    if Visible(f.accessibility) && !f.hasDocumentationComment {
      sink.Report(Diagnostic("WPF0061", Identifier, [], map[]));
    }
  }

  /** WPF0042 at the first statement of a block body without the accessor's call. */
  method ReportSideEffect(body: Option<seq<Statement>>, call: nat, sink: DiagnosticSink)
    modifies sink
    ensures sink.reported == old(sink.reported) + SideEffect(body, call)
  {
    if body.Some? {
      var statement := FirstWithout(body.value, call);
      if statement.Some? {
        sink.Report(Diagnostic("WPF0042", BodyStatement(statement.value), [], map[]));
      }
    }
  }

  /** The [AttachedPropertyBrowsableForType] check of the get branch. */
  method ReportBrowsable(f: Facts, sink: DiagnosticSink)
    requires |f.parameterTypes| >= 1
    modifies sink
    ensures sink.reported == old(sink.reported) + Browsable(f)
  {
    if f.browsable.Some? {
      var attribute := f.browsable.value;
      if |attribute.arguments| == 1 && attribute.arguments[0].expression.TypeOf? &&
         attribute.arguments[0].expression.typeArgument.Some? &&
         (attribute.arguments[0].expression.typeArgument.value, f.parameterTypes[0]) !in f.assignable {
        sink.Report(Diagnostic("WPF0034", SingleArgument,
                               [f.display(f.parameterTypes[0], attribute.arguments[0].spanStart)], map[]));
      }
    } else {
      sink.Report(Diagnostic("WPF0033", Identifier, [f.display(f.parameterTypes[0], f.spanStart)], map[]));
    }
  }

  // ---------------------------------------------------------------------
  // Properties of the rules

  /** The rule pieces of both branches, filtered to one id. */
  lemma {:induction false} RulesById(f: Facts, a: AttachedAccessor, id: string)
    requires |f.parameterTypes| >= 1
    ensures |f.parameterTypes| >= 2 ==>
              WithId(SetRules(f, a), id) ==
                if id == "WPF0004" then NameRule(f, "Set", a.registeredName)
                else if id == "WPF0013" then TypeRule(ParameterTypeSyntax(1), "Value type", f.parameterTypes[1], a.registeredType)
                else if id == "WPF0042" then SideEffect(f.body, a.call)
                else if id == "WPF0061" then Documentation(f)
                else []
    ensures WithId(GetRules(f, a), id) ==
              if id == "WPF0004" then NameRule(f, "Get", a.registeredName)
              else if id == "WPF0013" then TypeRule(ReturnTypeSyntax, "Return type", f.returnType, a.registeredType)
              else if id == "WPF0042" then SideEffect(f.body, a.call)
              else if id == "WPF0061" then Documentation(f)
              else if id in {"WPF0033", "WPF0034"} then WithId(Browsable(f), id)
              else []
  {
    var n := NameRule(f, "Get", a.registeredName);
    var t := TypeRule(ReturnTypeSyntax, "Return type", f.returnType, a.registeredType);
    var d := Documentation(f);
    var s := SideEffect(f.body, a.call);
    var b := Browsable(f);
    WithIdPiece(n, "WPF0004", id);
    WithIdPiece(t, "WPF0013", id);
    WithIdPiece(d, "WPF0061", id);
    WithIdPiece(s, "WPF0042", id);
    WithIdAppend(n + t + d + s, b, id);
    WithIdAppend(n + t + d, s, id);
    WithIdAppend(n + t, d, id);
    WithIdAppend(n, t, id);
    if id !in {"WPF0033", "WPF0034"} {
      WithIdAbsent(b, id);
    }
    if |f.parameterTypes| >= 2 {
      var t1 := TypeRule(ParameterTypeSyntax(1), "Value type", f.parameterTypes[1], a.registeredType);
      var n1 := NameRule(f, "Set", a.registeredName);
      WithIdPiece(n1, "WPF0004", id);
      WithIdPiece(t1, "WPF0013", id);
      WithIdAppend(n1 + t1 + s, d, id);
      WithIdAppend(n1 + t1, s, id);
      WithIdAppend(n1, t1, id);
    }
  }

  /** Nothing is reported unless the method is static with a first parameter assignable to DependencyObject. */
  lemma IneligibleIsSilent(f: Facts)
    requires !Eligible(f)
    ensures Diagnose(f) == []
  {
  }

  /**
    WPF0004 is reported exactly when the accessor branch that applies has a
    registered name and the method is not named `"Set"/"Get" + registeredName`;
    the fix property proposes that name.
   */
  lemma Wpf0004Condition(f: Facts)
    ensures var b := BranchOf(f);
            WithId(Diagnose(f), "WPF0004") ==
              if Eligible(f) && !b.NoBranch? && b.accessor.registeredName.Some?
                 && f.name != Prefix(b) + b.accessor.registeredName.value then
                [Diagnostic("WPF0004", Identifier, [f.name, Prefix(b) + b.accessor.registeredName.value],
                            map["ExpectedName" := Prefix(b) + b.accessor.registeredName.value])]
              else []
  {
    if Eligible(f) && !BranchOf(f).NoBranch? {
      RulesById(f, BranchOf(f).accessor, "WPF0004");
    }
  }

  /**
    WPF0013 compares the value parameter's type (set) or the return type (get)
    with the registered type and is reported at that type's syntax.
   */
  lemma Wpf0013Condition(f: Facts)
    ensures var b := BranchOf(f);
            WithId(Diagnose(f), "WPF0013") ==
              if Eligible(f) && b.SetBranch? && b.accessor.registeredType.Some?
                 && f.parameterTypes[1] != b.accessor.registeredType.value then
                [Diagnostic("WPF0013", ParameterTypeSyntax(1), ["Value type", b.accessor.registeredType.value], map[])]
              else if Eligible(f) && b.GetBranch? && b.accessor.registeredType.Some?
                 && f.returnType != b.accessor.registeredType.value then
                [Diagnostic("WPF0013", ReturnTypeSyntax, ["Return type", b.accessor.registeredType.value], map[])]
              else []
  {
    if Eligible(f) && !BranchOf(f).NoBranch? {
      RulesById(f, BranchOf(f).accessor, "WPF0013");
    }
  }

  /**
    WPF0042 is reported at most once, for a block body only, at the first
    statement that does not contain the accessor's SetValue/GetValue call.
   */
  lemma Wpf0042FirstOffendingStatement(f: Facts)
    ensures |WithId(Diagnose(f), "WPF0042")| <= 1
    ensures WithId(Diagnose(f), "WPF0042") != [] <==>
              && Eligible(f) && !BranchOf(f).NoBranch? && f.body.Some?
              && exists i :: 0 <= i < |f.body.value| && BranchOf(f).accessor.call !in f.body.value[i].invocations
    ensures forall d :: d in WithId(Diagnose(f), "WPF0042") ==>
              && d.location.BodyStatement?
              && d.location.index < |f.body.value|
              && BranchOf(f).accessor.call !in f.body.value[d.location.index].invocations
              && forall j :: 0 <= j < d.location.index ==> BranchOf(f).accessor.call in f.body.value[j].invocations
  {
    if Eligible(f) && !BranchOf(f).NoBranch? {
      RulesById(f, BranchOf(f).accessor, "WPF0042");
    }
  }

  /** WPF0061 is reported exactly for a protected, internal or public accessor without a documentation comment. */
  lemma Wpf0061Condition(f: Facts)
    ensures WithId(Diagnose(f), "WPF0061") != [] <==>
              Eligible(f) && !BranchOf(f).NoBranch? && f.accessibility in {Protected, Internal, Public} && !f.hasDocumentationComment
  {
    if Eligible(f) && !BranchOf(f).NoBranch? {
      RulesById(f, BranchOf(f).accessor, "WPF0061");
    }
  }

  /**
    In the get branch exactly one of two cases applies: without the attribute
    WPF0033 is reported; with it, WPF0034 is reported exactly when its single
    typeof argument is not assignable to the first parameter's type. Neither
    is considered in the set branch.
   */
  lemma BrowsableAttributeCases(f: Facts)
    ensures WithId(Diagnose(f), "WPF0033") != [] <==> Eligible(f) && BranchOf(f).GetBranch? && f.browsable.None?
    ensures WithId(Diagnose(f), "WPF0034") != [] <==> Eligible(f) && BranchOf(f).GetBranch? && WrongBrowsableArgument(f)
    ensures WithId(Diagnose(f), "WPF0033") == [] || WithId(Diagnose(f), "WPF0034") == []
  {
    if Eligible(f) && !BranchOf(f).NoBranch? {
      var a := BranchOf(f).accessor;
      RulesById(f, a, "WPF0033");
      RulesById(f, a, "WPF0034");
      var b := Browsable(f);
      if f.browsable.None? {
        assert b[0].id == "WPF0033";
        assert WithId(b, "WPF0033") != [] by { assert b[0] in WithId(b, "WPF0033"); }
        WithIdAbsent(b, "WPF0034");
      } else {
        WithIdAbsent(b, "WPF0033");
        if b != [] {
          assert b[0] in WithId(b, "WPF0034");
        }
      }
    }
  }
}
