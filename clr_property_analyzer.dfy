/**
  ClrPropertyDeclarationAnalyzer: the instance CLR wrapper `Foo { get =>
  (T)GetValue(FooProperty); set => SetValue(FooProperty, value); }` of a
  DependencyProperty.
  WPF0036: the accessors do nothing but the GetValue/SetValue call; WPF0032:
  get and set use the same DependencyProperty; WPF0035: the setter uses
  SetValue; WPF0003 / WPF0012: the property's name and type match the
  registration.
 */
module ClrPropertyAnalyzer {
  import opened Host
  import opened Text

  /** The expression of an invocation argument, as far as WPF0032 looks at it. */
  datatype ArgumentExpression = IdentifierName(valueText: string) | OtherArgument

  /** An invocation expression: its node, its method name when it has one, and its arguments. */
  datatype Invocation = Invocation(node: nat, methodName: Option<string>, arguments: seq<ArgumentExpression>)

  /** The kind of an accessor declaration. */
  datatype AccessorKind = GetAccessor | SetAccessor | OtherAccessor

  /**
    One invocation met by the walker, in traversal order, with the kind of its
    nearest enclosing accessor declaration (None when it has none, as in an
    expression-bodied property).
   */
  datatype Visit = Visit(invocation: Invocation, accessor: Option<AccessorKind>)

  /** The walker keeps GetValue, SetValue and SetCurrentValue invocations that sit inside an accessor. */
  predicate Recorded(v: Visit) {
    && v.invocation.methodName.Some?
    && v.invocation.methodName.value in {"SetValue", "SetCurrentValue", "GetValue"}
    && v.accessor.Some?
  }

  /** The visit is recorded into the field for accessors of kind `kind`. */
  predicate RecordedAs(v: Visit, kind: AccessorKind) {
    Recorded(v) && v.accessor.value == kind
  }

  /**
    The call the walker ends up holding for accessors of `kind` after visiting
    `visits`: the last recorded one, since a later one overwrites an earlier.
   */
  function LastCall(visits: seq<Visit>, kind: AccessorKind): Option<Invocation>
  {
    if visits == [] then None
    else if RecordedAs(visits[|visits| - 1], kind) then Some(visits[|visits| - 1].invocation)
    else LastCall(visits[..|visits| - 1], kind)
  }

  /** Last match wins: the call held is recorded, and no later visit is recorded for the same kind. */
  lemma {:induction false} LastCallIsLast(visits: seq<Visit>, kind: AccessorKind)
    ensures var r := LastCall(visits, kind);
            r.Some? ==> exists i :: 0 <= i < |visits| && RecordedAs(visits[i], kind) && visits[i].invocation == r.value
                                    && forall j :: i < j < |visits| ==> !RecordedAs(visits[j], kind)
    ensures LastCall(visits, kind).None? <==> forall i :: 0 <= i < |visits| ==> !RecordedAs(visits[i], kind)
  {
    if visits != [] && !RecordedAs(visits[|visits| - 1], kind) {
      var front := visits[..|visits| - 1];
      LastCallIsLast(front, kind);
      assert forall i :: 0 <= i < |front| ==> front[i] == visits[i];
    }
  }

  /** `PropertyDeclarationWalker`: remembers the last get and set call it visits. */
  class PropertyDeclarationWalker {
    var getCall: Option<Invocation>
    var setCall: Option<Invocation>

    constructor ()
      ensures getCall.None? && setCall.None?
    {
      getCall := None;
      setCall := None;
    }

    /** A recorded invocation lands in the field named by its accessor's kind; nothing else changes. */
    method VisitInvocationExpression(v: Visit)
      modifies this
      ensures getCall == if RecordedAs(v, GetAccessor) then Some(v.invocation) else old(getCall)
      ensures setCall == if RecordedAs(v, SetAccessor) then Some(v.invocation) else old(setCall)
    {
      if v.invocation.methodName.Some? &&
         (v.invocation.methodName.value == "SetValue" || v.invocation.methodName.value == "SetCurrentValue" ||
          v.invocation.methodName.value == "GetValue") &&
         v.accessor.Some? {
        if v.accessor.value == GetAccessor {
          getCall := Some(v.invocation);
        } else if v.accessor.value == SetAccessor {
          setCall := Some(v.invocation);
        }
      }
    }

    /** Run when the walker goes back to the pool. */
    method Clear()
      modifies this
      ensures getCall.None? && setCall.None?
    {
      getCall := None;
      setCall := None;
    }

    /**
      Walk a property declaration's invocations and report the calls found;
      `found` holds when at least one of them was.
     */
    static method TryGetCalls(visits: seq<Visit>) returns (found: bool, getCall: Option<Invocation>, setCall: Option<Invocation>)
      ensures getCall == LastCall(visits, GetAccessor)
      ensures setCall == LastCall(visits, SetAccessor)
      ensures found <==> getCall.Some? || setCall.Some?
    {
      var walker := new PropertyDeclarationWalker();
      var i := 0;
      while i < |visits|
        invariant 0 <= i <= |visits|
        invariant walker.getCall == LastCall(visits[..i], GetAccessor)
        invariant walker.setCall == LastCall(visits[..i], SetAccessor)
      {
        assert visits[..i + 1][..i] == visits[..i];
        walker.VisitInvocationExpression(visits[i]);
        i := i + 1;
      }
      assert visits[..i] == visits;
      getCall := walker.getCall;
      setCall := walker.setCall;
      found := getCall.Some? || setCall.Some?;
      walker.Clear();
    }
  }

  /** A get or set accessor declaration: its block body, when it has one. */
  datatype Accessor = Accessor(body: Option<seq<Statement>>)

  /** The backing member `ClrProperty.TryGetRegisterField` finds, with what resolves about its registration. */
  datatype RegisterField = RegisterField(registeredName: Option<string>, registeredType: Option<TypeId>)

  /** Everything the semantic model answers about one property declaration. */
  datatype Facts = Facts(
    excluded: bool,
    isStatic: bool,
    isProperty: bool,                          // a property declaration whose symbol is a property
    containingTypeIsDependencyObject: bool,    // ContainingType.IsAssignableTo(DependencyObject)
    name: string,
    propertyText: string,                      // the property symbol as a message argument
    propertyType: TypeId,
    visits: seq<Visit>,
    getter: Option<Accessor>,
    setter: Option<Accessor>,
    registerField: Option<RegisterField>,
    display: (TypeId, nat) -> string,          // ToMinimalDisplayString(type, position)
    spanStart: nat)

  predicate Eligible(f: Facts) {
    !f.excluded && !f.isStatic && f.isProperty && f.containingTypeIsDependencyObject
  }

  /** WPF0036: the first statement of an accessor's block body without the call, at `at(index)`. */
  function SideEffect(call: Option<Invocation>, accessor: Option<Accessor>, setter: bool): (r: seq<Diagnostic>)
    ensures forall d :: d in r ==> d.id == "WPF0036"
    ensures |r| <= 1
    ensures forall d :: d in r ==> if setter then d.location.SetterStatement? else d.location.GetterStatement?
  {
    if call.Some? && accessor.Some? && accessor.value.body.Some? then
      match FirstWithout(accessor.value.body.value, call.value.node)
      case Some(i) => [Diagnostic("WPF0036", if setter then SetterStatement(i) else GetterStatement(i), [], map[])]
      case None => []
    else []
  }

  /**
    WPF0036 fires for an accessor exactly when its block body has a statement
    without the call, and then at the first such statement.
   */
  lemma SideEffectCondition(call: Option<Invocation>, accessor: Option<Accessor>, setter: bool)
    ensures var r := SideEffect(call, accessor, setter);
            && (r != [] <==> call.Some? && accessor.Some? && accessor.value.body.Some?
                             && exists i :: 0 <= i < |accessor.value.body.value| && call.value.node !in accessor.value.body.value[i].invocations)
            && (r != [] ==> var i := FirstWithout(accessor.value.body.value, call.value.node).value;
                            r[0].location == (if setter then SetterStatement(i) else GetterStatement(i))
                            && forall j :: 0 <= j < i ==> call.value.node in accessor.value.body.value[j].invocations)
  {
  }

  /** The identifier of argument 0 of a call, when there is a call with such an argument. */
  function FirstIdentifier(call: Option<Invocation>): (r: Option<string>)
    ensures r.Some? <==> call.Some? && |call.value.arguments| > 0 && call.value.arguments[0].IdentifierName?
    ensures r.Some? ==> call.value.arguments[0] == IdentifierName(r.value)
  {
    if call.Some? && |call.value.arguments| > 0 && call.value.arguments[0].IdentifierName? then
      Some(call.value.arguments[0].valueText)
    else None
  }

  /**
    WPF0032: get and set name different DependencyProperty identifiers,
    unless the setter uses the getter's name followed by "Key".
   */
  function SameProperty(f: Facts, getCall: Option<Invocation>, setCall: Option<Invocation>): (r: seq<Diagnostic>)
    ensures forall d :: d in r ==> d.id == "WPF0032"
  {
    match FirstIdentifier(getCall)
    case Some(getName) =>
      (match FirstIdentifier(setCall)
       case Some(setName) =>
         if getName != setName && !IsParts(setName, getName, "Key") then
           [Diagnostic("WPF0032", Node, [f.name], map[])]
         else []
       case None => [])
    case None => []
  }

  /** WPF0035: the setter's call is not SetValue. */
  function UseSetValue(f: Facts, setCall: Option<Invocation>): (r: seq<Diagnostic>)
    ensures forall d :: d in r ==> d.id == "WPF0035"
  {
    if setCall.Some? && setCall.value.methodName.Some? && setCall.value.methodName.value != "SetValue" then
      [Diagnostic("WPF0035", SetCall, [f.name], map[])]
    else []
  }

  /** WPF0003: the property is not named as registered; the fix property carries the registered name. */
  function NameRule(f: Facts): (r: seq<Diagnostic>)
    ensures forall d :: d in r ==> d.id == "WPF0003"
    ensures r != [] <==> f.registerField.Some? && f.registerField.value.registeredName.Some?
                         && f.registerField.value.registeredName.value != f.name
    ensures r != [] ==> var registeredName := f.registerField.value.registeredName.value;
                        r == [Diagnostic("WPF0003", Identifier, [f.name, registeredName], map["ExpectedName" := registeredName])]
  {
    match f.registerField
    case Some(RegisterField(Some(registeredName), _)) =>
      if registeredName != f.name then
        [Diagnostic("WPF0003", Identifier, [f.name, registeredName], map["ExpectedName" := registeredName])]
      else []
    case _ => []
  }

  /** WPF0012: the property's type is not the registered type; the fix property carries the type's display text. */
  function TypeRule(f: Facts): (r: seq<Diagnostic>)
    ensures forall d :: d in r ==> d.id == "WPF0012"
    ensures r != [] <==> f.registerField.Some? && f.registerField.value.registeredType.Some?
                         && f.registerField.value.registeredType.value != f.propertyType
    ensures r != [] ==> var t := f.registerField.value.registeredType.value;
                        r == [Diagnostic("WPF0012", PropertyTypeSyntax, [f.propertyText, t], map["TypeSyntax" := f.display(t, f.spanStart)])]
  {
    match f.registerField
    case Some(RegisterField(_, Some(registeredType))) =>
      if registeredType != f.propertyType then
        [Diagnostic("WPF0012", PropertyTypeSyntax, [f.propertyText, registeredType],
                    map["TypeSyntax" := f.display(registeredType, f.spanStart)])]
      else []
    case _ => []
  }

  /** The rules, in reporting order, once the walker has found `getCall` and `setCall`. */
  function Rules(f: Facts, getCall: Option<Invocation>, setCall: Option<Invocation>): seq<Diagnostic> {
    SideEffect(setCall, f.setter, true)
    + SideEffect(getCall, f.getter, false)
    + SameProperty(f, getCall, setCall)
    + UseSetValue(f, setCall)
    + NameRule(f)
    + TypeRule(f)
  }

  /** Everything `Handle` reports for one property declaration. */
  function Diagnose(f: Facts): seq<Diagnostic> {
    var getCall := LastCall(f.visits, GetAccessor);
    var setCall := LastCall(f.visits, SetAccessor);
    if !Eligible(f) || (getCall.None? && setCall.None?) then []
    else Rules(f, getCall, setCall)
  }

  /** The analyzer's node action, reporting through the host's sink. */
  method Handle(f: Facts, sink: DiagnosticSink)
    modifies sink
    ensures sink.reported == old(sink.reported) + Diagnose(f)
  {
    if !f.excluded && !f.isStatic && f.isProperty && f.containingTypeIsDependencyObject {
      var found, getCall, setCall := PropertyDeclarationWalker.TryGetCalls(f.visits);
      if found {
        ghost var start := sink.reported;
        ghost var s := SideEffect(setCall, f.setter, true);
        ghost var g := SideEffect(getCall, f.getter, false);
        ghost var p := SameProperty(f, getCall, setCall);
        ghost var u := UseSetValue(f, setCall);
        ReportSideEffect(setCall, f.setter, true, sink);
        ReportSideEffect(getCall, f.getter, false, sink);
        assert sink.reported == start + (s + g);
        ReportSameProperty(f, getCall, setCall, sink);
        ReportUseSetValue(f, setCall, sink);
        assert sink.reported == start + (s + g + p + u);
        ReportRegistration(f, sink);
      }
    }
  }

  method ReportSideEffect(call: Option<Invocation>, accessor: Option<Accessor>, setter: bool, sink: DiagnosticSink)
    modifies sink
    ensures sink.reported == old(sink.reported) + SideEffect(call, accessor, setter)
  {
    if call.Some? && accessor.Some? && accessor.value.body.Some? {
      var statement := FirstWithout(accessor.value.body.value, call.value.node);
      if statement.Some? {
        sink.Report(Diagnostic("WPF0036", if setter then SetterStatement(statement.value) else GetterStatement(statement.value), [], map[]));
      }
    }
  }

  method ReportSameProperty(f: Facts, getCall: Option<Invocation>, setCall: Option<Invocation>, sink: DiagnosticSink)
    modifies sink
    ensures sink.reported == old(sink.reported) + SameProperty(f, getCall, setCall)
  {
    if getCall.Some? && |getCall.value.arguments| > 0 && getCall.value.arguments[0].IdentifierName? &&
       setCall.Some? && |setCall.value.arguments| > 0 && setCall.value.arguments[0].IdentifierName? {
      var getName := getCall.value.arguments[0].valueText;
      var setName := setCall.value.arguments[0].valueText;
      if getName != setName && !IsParts(setName, getName, "Key") {
        sink.Report(Diagnostic("WPF0032", Node, [f.name], map[]));
      }
    }
  }

  method ReportUseSetValue(f: Facts, setCall: Option<Invocation>, sink: DiagnosticSink)
    modifies sink
    ensures sink.reported == old(sink.reported) + UseSetValue(f, setCall)
  {
    if setCall.Some? && setCall.value.methodName.Some? && setCall.value.methodName.value != "SetValue" {
      sink.Report(Diagnostic("WPF0035", SetCall, [f.name], map[]));
    }
  }

  method ReportRegistration(f: Facts, sink: DiagnosticSink)
    modifies sink
    ensures sink.reported == old(sink.reported) + NameRule(f) + TypeRule(f)
  {
    if f.registerField.Some? {
      ghost var start := sink.reported;
      var field := f.registerField.value;
      if field.registeredName.Some? && field.registeredName.value != f.name {
        sink.Report(Diagnostic("WPF0003", Identifier, [f.name, field.registeredName.value],
                               map["ExpectedName" := field.registeredName.value]));
      }
      assert sink.reported == start + NameRule(f);
      ghost var named := sink.reported;

      if field.registeredType.Some? && field.registeredType.value != f.propertyType {
        sink.Report(Diagnostic("WPF0012", PropertyTypeSyntax, [f.propertyText, field.registeredType.value],
                               map["TypeSyntax" := f.display(field.registeredType.value, f.spanStart)]));
      }
      assert sink.reported == named + TypeRule(f);
    }
  }

  // ---------------------------------------------------------------------
  // Properties of the rules

  /** The analysis runs: an eligible property on which the walker found a get or set call. */
  predicate Analysed(f: Facts) {
    Eligible(f) && (LastCall(f.visits, GetAccessor).Some? || LastCall(f.visits, SetAccessor).Some?)
  }

  /** The pieces of `Diagnose`, filtered to one id. */
  lemma DiagnoseById(f: Facts, id: string)
    ensures var getCall := LastCall(f.visits, GetAccessor);
            var setCall := LastCall(f.visits, SetAccessor);
            WithId(Diagnose(f), id) ==
              if !Analysed(f) then []
              else if id == "WPF0036" then SideEffect(setCall, f.setter, true) + SideEffect(getCall, f.getter, false)
              else if id == "WPF0032" then SameProperty(f, getCall, setCall)
              else if id == "WPF0035" then UseSetValue(f, setCall)
              else if id == "WPF0003" then NameRule(f)
              else if id == "WPF0012" then TypeRule(f)
              else []
  {
    if Analysed(f) {
      RulesById(f, LastCall(f.visits, GetAccessor), LastCall(f.visits, SetAccessor), id);
    }
  }

  lemma RulesById(f: Facts, getCall: Option<Invocation>, setCall: Option<Invocation>, id: string)
    ensures WithId(Rules(f, getCall, setCall), id) ==
              if id == "WPF0036" then SideEffect(setCall, f.setter, true) + SideEffect(getCall, f.getter, false)
              else if id == "WPF0032" then SameProperty(f, getCall, setCall)
              else if id == "WPF0035" then UseSetValue(f, setCall)
              else if id == "WPF0003" then NameRule(f)
              else if id == "WPF0012" then TypeRule(f)
              else []
  {
    if id == "WPF0036" {
      Wpf0036Rules(f, getCall, setCall);
    } else if id == "WPF0032" {
      Wpf0032Rules(f, getCall, setCall);
    } else if id == "WPF0035" {
      Wpf0035Rules(f, getCall, setCall);
    } else if id == "WPF0003" {
      Wpf0003Rules(f, getCall, setCall);
    } else if id == "WPF0012" {
      Wpf0012Rules(f, getCall, setCall);
    } else {
      OtherRules(f, getCall, setCall, id);
    }
  }

  // The rules filtered to each id in turn: only the rules of that id remain.

  lemma Wpf0036Rules(f: Facts, getCall: Option<Invocation>, setCall: Option<Invocation>)
    ensures WithId(Rules(f, getCall, setCall), "WPF0036") == SideEffect(setCall, f.setter, true) + SideEffect(getCall, f.getter, false)
  {
    RulesFiltered(f, getCall, setCall, "WPF0036");
    WithIdAll(SideEffect(setCall, f.setter, true), "WPF0036");
    WithIdAll(SideEffect(getCall, f.getter, false), "WPF0036");
    WithIdAbsent(SameProperty(f, getCall, setCall), "WPF0036");
    WithIdAbsent(UseSetValue(f, setCall), "WPF0036");
    WithIdAbsent(NameRule(f), "WPF0036");
    WithIdAbsent(TypeRule(f), "WPF0036");
  }

  lemma Wpf0032Rules(f: Facts, getCall: Option<Invocation>, setCall: Option<Invocation>)
    ensures WithId(Rules(f, getCall, setCall), "WPF0032") == SameProperty(f, getCall, setCall)
  {
    RulesFiltered(f, getCall, setCall, "WPF0032");
    WithIdAbsent(SideEffect(setCall, f.setter, true), "WPF0032");
    WithIdAbsent(SideEffect(getCall, f.getter, false), "WPF0032");
    WithIdAll(SameProperty(f, getCall, setCall), "WPF0032");
    WithIdAbsent(UseSetValue(f, setCall), "WPF0032");
    WithIdAbsent(NameRule(f), "WPF0032");
    WithIdAbsent(TypeRule(f), "WPF0032");
  }

  lemma Wpf0035Rules(f: Facts, getCall: Option<Invocation>, setCall: Option<Invocation>)
    ensures WithId(Rules(f, getCall, setCall), "WPF0035") == UseSetValue(f, setCall)
  {
    RulesFiltered(f, getCall, setCall, "WPF0035");
    WithIdAbsent(SideEffect(setCall, f.setter, true), "WPF0035");
    WithIdAbsent(SideEffect(getCall, f.getter, false), "WPF0035");
    WithIdAbsent(SameProperty(f, getCall, setCall), "WPF0035");
    WithIdAll(UseSetValue(f, setCall), "WPF0035");
    WithIdAbsent(NameRule(f), "WPF0035");
    WithIdAbsent(TypeRule(f), "WPF0035");
  }

  lemma Wpf0003Rules(f: Facts, getCall: Option<Invocation>, setCall: Option<Invocation>)
    ensures WithId(Rules(f, getCall, setCall), "WPF0003") == NameRule(f)
  {
    RulesFiltered(f, getCall, setCall, "WPF0003");
    WithIdAbsent(SideEffect(setCall, f.setter, true), "WPF0003");
    WithIdAbsent(SideEffect(getCall, f.getter, false), "WPF0003");
    WithIdAbsent(SameProperty(f, getCall, setCall), "WPF0003");
    WithIdAbsent(UseSetValue(f, setCall), "WPF0003");
    WithIdAll(NameRule(f), "WPF0003");
    WithIdAbsent(TypeRule(f), "WPF0003");
  }

  lemma Wpf0012Rules(f: Facts, getCall: Option<Invocation>, setCall: Option<Invocation>)
    ensures WithId(Rules(f, getCall, setCall), "WPF0012") == TypeRule(f)
  {
    RulesFiltered(f, getCall, setCall, "WPF0012");
    WithIdAbsent(SideEffect(setCall, f.setter, true), "WPF0012");
    WithIdAbsent(SideEffect(getCall, f.getter, false), "WPF0012");
    WithIdAbsent(SameProperty(f, getCall, setCall), "WPF0012");
    WithIdAbsent(UseSetValue(f, setCall), "WPF0012");
    WithIdAbsent(NameRule(f), "WPF0012");
    WithIdAll(TypeRule(f), "WPF0012");
  }

  lemma OtherRules(f: Facts, getCall: Option<Invocation>, setCall: Option<Invocation>, id: string)
    requires id !in {"WPF0036", "WPF0032", "WPF0035", "WPF0003", "WPF0012"}
    ensures WithId(Rules(f, getCall, setCall), id) == []
  {
    RulesFiltered(f, getCall, setCall, id);
    WithIdAbsent(SideEffect(setCall, f.setter, true), id);
    WithIdAbsent(SideEffect(getCall, f.getter, false), id);
    WithIdAbsent(SameProperty(f, getCall, setCall), id);
    WithIdAbsent(UseSetValue(f, setCall), id);
    WithIdAbsent(NameRule(f), id);
    WithIdAbsent(TypeRule(f), id);
  }

  /** Filtering the rules filters each rule. */
  lemma {:induction false} RulesFiltered(f: Facts, getCall: Option<Invocation>, setCall: Option<Invocation>, id: string)
    ensures WithId(Rules(f, getCall, setCall), id) ==
              WithId(SideEffect(setCall, f.setter, true), id) + WithId(SideEffect(getCall, f.getter, false), id)
              + WithId(SameProperty(f, getCall, setCall), id) + WithId(UseSetValue(f, setCall), id)
              + WithId(NameRule(f), id) + WithId(TypeRule(f), id)
  {
    var s := SideEffect(setCall, f.setter, true);
    var g := SideEffect(getCall, f.getter, false);
    var p := SameProperty(f, getCall, setCall);
    var u := UseSetValue(f, setCall);
    var n := NameRule(f);
    var t := TypeRule(f);
    WithIdAppend(s + g + p + u + n, t, id);
    WithIdAppend(s + g + p + u, n, id);
    WithIdAppend(s + g + p, u, id);
    WithIdAppend(s + g, p, id);
    WithIdAppend(s, g, id);
  }

  /** A property whose accessors hold no GetValue/SetValue/SetCurrentValue call gets no diagnostic. */
  lemma NoCallsIsSilent(f: Facts)
    requires forall i :: 0 <= i < |f.visits| ==> !Recorded(f.visits[i])
    ensures Diagnose(f) == []
  {
    LastCallIsLast(f.visits, GetAccessor);
    LastCallIsLast(f.visits, SetAccessor);
  }

  /** The walker sorts calls only by the kind of their enclosing accessor: a get accessor's call is never the set call. */
  lemma CallsFollowAccessorKind(visits: seq<Visit>)
    ensures LastCall(visits, GetAccessor).Some? ==>
              exists i :: 0 <= i < |visits| && visits[i].accessor == Some(GetAccessor) && visits[i].invocation == LastCall(visits, GetAccessor).value
    ensures LastCall(visits, SetAccessor).Some? ==>
              exists i :: 0 <= i < |visits| && visits[i].accessor == Some(SetAccessor) && visits[i].invocation == LastCall(visits, SetAccessor).value
  {
    LastCallIsLast(visits, GetAccessor);
    LastCallIsLast(visits, SetAccessor);
  }

  /** The last of two recorded set calls wins. */
  lemma LaterSetCallWins(first: Visit, second: Visit)
    requires RecordedAs(first, SetAccessor) && RecordedAs(second, SetAccessor)
    ensures LastCall([first, second], SetAccessor) == Some(second.invocation)
  {
  }

  /**
    WPF0036 is reported at most once per accessor: at the first setter
    statement without the set call, then at the first getter statement
    without the get call.
   */
  lemma Wpf0036OncePerAccessor(f: Facts)
    ensures |WithId(Diagnose(f), "WPF0036")| <= 2
    ensures forall d :: d in WithId(Diagnose(f), "WPF0036") ==> d.location.SetterStatement? || d.location.GetterStatement?
    ensures |WithId(Diagnose(f), "WPF0036")| == 2 ==>
              WithId(Diagnose(f), "WPF0036")[0].location.SetterStatement? && WithId(Diagnose(f), "WPF0036")[1].location.GetterStatement?
  {
    DiagnoseById(f, "WPF0036");
  }

  /**
    WPF0032 is reported exactly when argument 0 of both calls is an
    identifier, the identifiers differ, and the setter's is not the getter's
    followed by "Key".
   */
  lemma Wpf0032Condition(f: Facts)
    ensures var getName := FirstIdentifier(LastCall(f.visits, GetAccessor));
            var setName := FirstIdentifier(LastCall(f.visits, SetAccessor));
            WithId(Diagnose(f), "WPF0032") ==
              if Analysed(f) && getName.Some? && setName.Some? && getName.value != setName.value
                 && setName.value != getName.value + "Key" then
                [Diagnostic("WPF0032", Node, [f.name], map[])]
              else []
  {
    DiagnoseById(f, "WPF0032");
  }

  /** A setter that uses a key (`BarKey` for `Bar`) is not a WPF0032. */
  lemma KeySetterIsAccepted(f: Facts)
    requires FirstIdentifier(LastCall(f.visits, GetAccessor)) == Some("BarProperty")
    requires FirstIdentifier(LastCall(f.visits, SetAccessor)) == Some("BarPropertyKey")
    ensures WithId(Diagnose(f), "WPF0032") == []
  {
    Wpf0032Condition(f);
  }

  /** WPF0035 is reported, at the set call, exactly when the set call's name is not SetValue. */
  lemma Wpf0035Condition(f: Facts)
    ensures var setCall := LastCall(f.visits, SetAccessor);
            WithId(Diagnose(f), "WPF0035") ==
              if Analysed(f) && setCall.Some? && setCall.value.methodName.Some? && setCall.value.methodName.value != "SetValue" then
                [Diagnostic("WPF0035", SetCall, [f.name], map[])]
              else []
  {
    DiagnoseById(f, "WPF0035");
  }

  /** WPF0003 is reported exactly when the registered name resolves and differs from the property's name. */
  lemma Wpf0003Condition(f: Facts)
    ensures WithId(Diagnose(f), "WPF0003") ==
              if Analysed(f) && f.registerField.Some? && f.registerField.value.registeredName.Some?
                 && f.registerField.value.registeredName.value != f.name then
                [Diagnostic("WPF0003", Identifier, [f.name, f.registerField.value.registeredName.value],
                            map["ExpectedName" := f.registerField.value.registeredName.value])]
              else []
  {
    DiagnoseById(f, "WPF0003");
  }

  /** WPF0012 is reported exactly when the registered type resolves and differs from the property's type. */
  lemma Wpf0012Condition(f: Facts)
    ensures WithId(Diagnose(f), "WPF0012") ==
              if Analysed(f) && f.registerField.Some? && f.registerField.value.registeredType.Some?
                 && f.registerField.value.registeredType.value != f.propertyType then
                var t := f.registerField.value.registeredType.value;
                [Diagnostic("WPF0012", PropertyTypeSyntax, [f.propertyText, t], map["TypeSyntax" := f.display(t, f.spanStart)])]
              else []
  {
    DiagnoseById(f, "WPF0012");
  }
}
