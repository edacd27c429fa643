/**
  DependencyPropertyBackingFieldOrPropertyAnalyzer: the rules about the static
  field or property that holds a DependencyProperty or DependencyPropertyKey.
  WPF0001 / WPF0002: its name is the registered name plus "Property" /
  "PropertyKey"; WPF0060: it is documented; WPF0031: a DependencyProperty
  field comes after its key; WPF0030: it is static and read-only.
 */
module BackingFieldOrPropertyAnalyzer {
  import opened Host
  import opened Text

  /** The declared type of a backing member. */
  datatype BackingType = DependencyPropertyType | DependencyPropertyKeyType | OtherType

  /** `BackingFieldOrProperty.TryCreate`: a static DependencyProperty(Key) field or property. */
  datatype BackingMember = BackingMember(name: string, backingType: BackingType, containingType: TypeId)

  /** The register call found for the member, reduced to its argument 0 if it has one. */
  datatype RegisterInvocation = RegisterInvocation(nameArgument: Option<Expression>)

  /** A position in the sources: which syntax tree, and the span start within it. */
  datatype Position = Position(tree: nat, spanStart: nat)

  /** The DependencyPropertyKey field whose `.DependencyProperty` initialises this field. */
  datatype KeyField = KeyField(name: string, containingType: TypeId, declaration: Option<Position>)

  /** The analysed node: a field declaration, a property declaration, or neither. */
  datatype MemberNode =
    | FieldDeclarationNode(position: Position)
    | PropertyDeclarationNode(hasExpressionBody: bool)
    | OtherNode

  datatype CandidateSymbol = FieldSymbol(isReadOnly: bool) | PropertySymbol(isReadOnly: bool)

  /** `BackingFieldOrProperty.TryCreateCandidate`: a field or property of a registration type, static or not. */
  datatype Candidate = Candidate(name: string, typeName: string, isStatic: bool, symbol: CandidateSymbol)

  /** Everything the semantic model answers about one declaration. */
  datatype Facts = Facts(
    excluded: bool,
    node: MemberNode,
    backingMember: Option<BackingMember>,
    registerInvocation: Option<RegisterInvocation>,   // TryGetRegisterInvocationRecursive(backingMember)
    propertyByName: Option<string>,                   // TryGetPropertyByName: the CLR property's name
    accessibility: Accessibility,
    hasDocumentationComment: bool,
    containingTypePropertyNames: set<string>,         // names TryFindProperty finds on the containing type
    keyField: Option<KeyField>,                       // TryGetDependencyPropertyKeyField
    candidate: Option<Candidate>,
    candidateHasRegisterInvocation: bool)             // TryGetRegisterInvocationRecursive(candidate)

  const PropertySuffix := "Property"
  const KeySuffix := "PropertyKey"

  /** The constant registered name, when argument 0 of the register call is a constant string. */
  function RegisteredName(invocation: RegisterInvocation): (r: Option<string>)
    ensures r.Some? <==> invocation.nameArgument.Some? && invocation.nameArgument.value.StringConstant?
    ensures r.Some? ==> invocation.nameArgument.value == StringConstant(r.value)
  {
    match invocation.nameArgument
    case Some(StringConstant(name)) => Some(name)
    case _ => None
  }

  /**
    WPF0001 (for DependencyProperty, suffix "Property") or WPF0002 (for
    DependencyPropertyKey, suffix "PropertyKey"): the member's name is not
    `name + suffix`. Only a report against a register call carries the
    expected name as a fix property.
   */
  function NameMismatch(id: string, kind: BackingType, suffix: string, member: BackingMember, name: string, withExpectedName: bool): (r: seq<Diagnostic>)
    ensures |r| <= 1
    ensures forall d :: d in r ==> d.id == id
    ensures r != [] <==> member.backingType == kind && member.name != name + suffix
    ensures r != [] ==> r[0] == Diagnostic(id, Identifier, [member.name, name],
                                           if withExpectedName then map["ExpectedName" := name + suffix] else map[])
  {
    if member.backingType == kind && !IsParts(member.name, name, suffix) then
      [Diagnostic(id, Identifier, [member.name, name],
                  if withExpectedName then map["ExpectedName" := name + suffix] else map[])]
    else []
  }

  /** WPF0060: an internal or public backing member of a CLR property must be documented. */
  function Documentation(f: Facts, registeredName: string): (r: seq<Diagnostic>)
    ensures r != [] <==> f.accessibility in {Internal, Public} && !f.hasDocumentationComment && registeredName in f.containingTypePropertyNames
    ensures r != [] ==> r == [Diagnostic("WPF0060", Identifier, [], map[])]
    ensures forall d :: d in r ==> d.id == "WPF0060"
  {
    if f.accessibility in {Internal, Public} && !f.hasDocumentationComment && registeredName in f.containingTypePropertyNames then
      [Diagnostic("WPF0060", Identifier, [], map[])]
    else []
  }

  /** The name and documentation rules, for a member with a backing-member view. */
  function NameRules(f: Facts, member: BackingMember): (r: seq<Diagnostic>)
    ensures forall d :: d in r ==> d.id in {"WPF0001", "WPF0002", "WPF0060"}
    ensures forall d :: d in r && d.id == "WPF0001" ==> member.backingType == DependencyPropertyType
    ensures forall d :: d in r && d.id == "WPF0002" ==> member.backingType == DependencyPropertyKeyType
  {
    match f.registerInvocation
    case Some(invocation) =>
      (match RegisteredName(invocation)
       case Some(registeredName) =>
         NameMismatch("WPF0001", DependencyPropertyType, PropertySuffix, member, registeredName, true)
         + NameMismatch("WPF0002", DependencyPropertyKeyType, KeySuffix, member, registeredName, true)
         + Documentation(f, registeredName)
       case None => [])
    case None =>
      match f.propertyByName
      case Some(propertyName) =>
        NameMismatch("WPF0001", DependencyPropertyType, PropertySuffix, member, propertyName, false)
        + NameMismatch("WPF0002", DependencyPropertyKeyType, KeySuffix, member, propertyName, false)
      case None => []
  }

  /** WPF0031: a field declared in the same tree before its key field. */
  predicate OutOfOrder(f: Facts, member: BackingMember) {
    && f.node.FieldDeclarationNode?
    && f.keyField.Some?
    && member.containingType == f.keyField.value.containingType
    && f.keyField.value.declaration.Some?
    && f.node.position.tree == f.keyField.value.declaration.value.tree
    && f.node.position.spanStart < f.keyField.value.declaration.value.spanStart
  }

  function FieldOrder(f: Facts, member: BackingMember): (r: seq<Diagnostic>)
    ensures forall d :: d in r ==> d.id == "WPF0031"
  {
    if OutOfOrder(f, member) then [Diagnostic("WPF0031", Node, [f.keyField.value.name, member.name], map[])]
    else []
  }

  /** One WPF0030 at the node when `failed` holds. */
  function StaticReadonlyReport(failed: bool, c: Candidate): (r: seq<Diagnostic>)
    ensures forall d :: d in r ==> d.id == "WPF0030"
  {
    if failed then [Diagnostic("WPF0030", Node, [c.name, c.typeName], map[])] else []
  }

  /**
    WPF0030, once for each of: not static; a field that is not read-only; a
    property that is not get-only; an expression-bodied property.
   */
  function StaticReadonly(f: Facts): (r: seq<Diagnostic>)
    ensures forall d :: d in r ==> d.id == "WPF0030"
  {
    match f.candidate
    case Some(c) =>
      if f.candidateHasRegisterInvocation then
        StaticReadonlyReport(!c.isStatic, c)
        + StaticReadonlyReport(c.symbol.FieldSymbol? && !c.symbol.isReadOnly, c)
        + StaticReadonlyReport(c.symbol.PropertySymbol? && !c.symbol.isReadOnly, c)
        + StaticReadonlyReport(f.node.PropertyDeclarationNode? && f.node.hasExpressionBody, c)
      else []
    case None => []
  }

  /** Everything `Handle` reports for one declaration, in reporting order. */
  function Diagnose(f: Facts): seq<Diagnostic> {
    if f.excluded then []
    else
      (if !f.node.OtherNode? && f.backingMember.Some? then
         NameRules(f, f.backingMember.value) + FieldOrder(f, f.backingMember.value)
       else [])
      + StaticReadonly(f)
  }

  /** The analyzer's node action, reporting through the host's sink. */
  method Handle(f: Facts, sink: DiagnosticSink)
    modifies sink
    ensures sink.reported == old(sink.reported) + Diagnose(f)
  {
    if f.excluded {
      return;
    }

    ghost var start := sink.reported;
    if !f.node.OtherNode? && f.backingMember.Some? {
      var member := f.backingMember.value;
      ReportNameRules(f, member, sink);
      ReportFieldOrder(f, member, sink);
    }
    ghost var checked := sink.reported;
    ReportStaticReadonly(f, sink);
    assert sink.reported == checked + StaticReadonly(f);
  }

  /** The register-call branch and its by-name fallback. */
  method ReportNameRules(f: Facts, member: BackingMember, sink: DiagnosticSink)
    modifies sink
    ensures sink.reported == old(sink.reported) + NameRules(f, member)
  {
    if f.registerInvocation.Some? {
      var invocation := f.registerInvocation.value;
      if invocation.nameArgument.Some? && invocation.nameArgument.value.StringConstant? {
        var registeredName := invocation.nameArgument.value.value;
        if member.backingType == DependencyPropertyType && !IsParts(member.name, registeredName, PropertySuffix) {
          sink.Report(Diagnostic("WPF0001", Identifier, [member.name, registeredName],
                                 map["ExpectedName" := registeredName + PropertySuffix]));
        }

        if member.backingType == DependencyPropertyKeyType && !IsParts(member.name, registeredName, KeySuffix) {
          sink.Report(Diagnostic("WPF0002", Identifier, [member.name, registeredName],
                                 map["ExpectedName" := registeredName + KeySuffix]));
        }

        if f.accessibility in {Internal, Public} && !f.hasDocumentationComment &&
           registeredName in f.containingTypePropertyNames {
          sink.Report(Diagnostic("WPF0060", Identifier, [], map[]));
        }
      }
    } else if f.propertyByName.Some? {
      var propertyName := f.propertyByName.value;
      if member.backingType == DependencyPropertyType && !IsParts(member.name, propertyName, PropertySuffix) {
        sink.Report(Diagnostic("WPF0001", Identifier, [member.name, propertyName], map[]));
      }

      if member.backingType == DependencyPropertyKeyType && !IsParts(member.name, propertyName, KeySuffix) {
        sink.Report(Diagnostic("WPF0002", Identifier, [member.name, propertyName], map[]));
      }
    }
  }

  /** WPF0031: the field is declared before the key field it is initialised from. */
  method ReportFieldOrder(f: Facts, member: BackingMember, sink: DiagnosticSink)
    modifies sink
    ensures sink.reported == old(sink.reported) + FieldOrder(f, member)
  {
    if f.node.FieldDeclarationNode? && f.keyField.Some? &&
       member.containingType == f.keyField.value.containingType &&
       f.keyField.value.declaration.Some? {
      var keyNode := f.keyField.value.declaration.value;
      if f.node.position.tree == keyNode.tree && f.node.position.spanStart < keyNode.spanStart {
        sink.Report(Diagnostic("WPF0031", Node, [f.keyField.value.name, member.name], map[]));
      }
    }
  }

  /** WPF0030 for a registered candidate, once per failed condition. */
  method ReportStaticReadonly(f: Facts, sink: DiagnosticSink)
    modifies sink
    ensures sink.reported == old(sink.reported) + StaticReadonly(f)
  {
    if f.candidate.Some? && f.candidateHasRegisterInvocation {
      var c := f.candidate.value;
      ghost var start := sink.reported;
      if !c.isStatic {
        sink.Report(Diagnostic("WPF0030", Node, [c.name, c.typeName], map[]));
      }

      if c.symbol.FieldSymbol? && !c.symbol.isReadOnly {
        sink.Report(Diagnostic("WPF0030", Node, [c.name, c.typeName], map[]));
      }

      if c.symbol.PropertySymbol? && !c.symbol.isReadOnly {
        sink.Report(Diagnostic("WPF0030", Node, [c.name, c.typeName], map[]));
      }

      if f.node.PropertyDeclarationNode? && f.node.hasExpressionBody {
        sink.Report(Diagnostic("WPF0030", Node, [c.name, c.typeName], map[]));
      }
    }
  }

  // ---------------------------------------------------------------------
  // Properties of the rules

  /** The backing member's view when the name rules run at all. */
  predicate Analysed(f: Facts) {
    !f.excluded && !f.node.OtherNode? && f.backingMember.Some?
  }

  /** The ids of WPF0001, WPF0002 and WPF0060 come only from the name rules. */
  lemma {:induction false} NameRuleIds(f: Facts, id: string)
    requires id in {"WPF0001", "WPF0002", "WPF0060"}
    ensures WithId(Diagnose(f), id) == if Analysed(f) then WithId(NameRules(f, f.backingMember.value), id) else []
  {
    var tail := StaticReadonly(f);
    WithIdAbsent(tail, id);
    if !f.excluded {
      if Analysed(f) {
        var m := f.backingMember.value;
        WithIdAppend(NameRules(f, m) + FieldOrder(f, m), tail, id);
        WithIdAppend(NameRules(f, m), FieldOrder(f, m), id);
        WithIdAbsent(FieldOrder(f, m), id);
      } else {
        assert Diagnose(f) == tail;
      }
    }
  }

  /** The name rules against one name, split by rule. */
  lemma {:induction false} NameRulesById(f: Facts, m: BackingMember, name: string, withExpectedName: bool, id: string)
    requires id in {"WPF0001", "WPF0002", "WPF0060"}
    ensures var a := NameMismatch("WPF0001", DependencyPropertyType, PropertySuffix, m, name, withExpectedName);
            var b := NameMismatch("WPF0002", DependencyPropertyKeyType, KeySuffix, m, name, withExpectedName);
            var c := Documentation(f, name);
            && WithId(a + b + c, id) == (if id == "WPF0001" then a else if id == "WPF0002" then b else c)
            && WithId(a + b, id) == (if id == "WPF0001" then a else if id == "WPF0002" then b else [])
  {
    var a := NameMismatch("WPF0001", DependencyPropertyType, PropertySuffix, m, name, withExpectedName);
    var b := NameMismatch("WPF0002", DependencyPropertyKeyType, KeySuffix, m, name, withExpectedName);
    var c := Documentation(f, name);
    WithIdAppend(a + b, c, id);
    WithIdAppend(a, b, id);
    if id == "WPF0001" {
      WithIdAll(a, id); WithIdAbsent(b, id); WithIdAbsent(c, id);
    } else if id == "WPF0002" {
      WithIdAbsent(a, id); WithIdAll(b, id); WithIdAbsent(c, id);
    } else {
      WithIdAbsent(a, id); WithIdAbsent(b, id); WithIdAll(c, id);
    }
  }

  /**
    With a register call whose name argument is the constant `registeredName`,
    WPF0001 is reported exactly when a DependencyProperty member is not named
    `registeredName + "Property"`, and it proposes that name.
   */
  lemma Wpf0001AgainstRegisteredName(f: Facts, registeredName: string)
    requires Analysed(f)
    requires f.registerInvocation == Some(RegisterInvocation(Some(StringConstant(registeredName))))
    ensures var m := f.backingMember.value;
            WithId(Diagnose(f), "WPF0001") ==
              if m.backingType == DependencyPropertyType && m.name != registeredName + "Property" then
                [Diagnostic("WPF0001", Identifier, [m.name, registeredName], map["ExpectedName" := registeredName + "Property"])]
              else []
  {
    NameRuleIds(f, "WPF0001");
    NameRulesById(f, f.backingMember.value, registeredName, true, "WPF0001");
  }

  /** The DependencyPropertyKey analogue: WPF0002 against `registeredName + "PropertyKey"`. */
  lemma Wpf0002AgainstRegisteredName(f: Facts, registeredName: string)
    requires Analysed(f)
    requires f.registerInvocation == Some(RegisterInvocation(Some(StringConstant(registeredName))))
    ensures var m := f.backingMember.value;
            WithId(Diagnose(f), "WPF0002") ==
              if m.backingType == DependencyPropertyKeyType && m.name != registeredName + "PropertyKey" then
                [Diagnostic("WPF0002", Identifier, [m.name, registeredName], map["ExpectedName" := registeredName + "PropertyKey"])]
              else []
  {
    NameRuleIds(f, "WPF0002");
    NameRulesById(f, f.backingMember.value, registeredName, true, "WPF0002");
  }

  /** A single member never gets both WPF0001 and WPF0002. */
  lemma Wpf0001AndWpf0002Exclusive(f: Facts)
    ensures WithId(Diagnose(f), "WPF0001") == [] || WithId(Diagnose(f), "WPF0002") == []
  {
    NameRuleIds(f, "WPF0001");
    NameRuleIds(f, "WPF0002");
    if Analysed(f) {
      var m := f.backingMember.value;
      var rules := NameRules(f, m);
      if m.backingType != DependencyPropertyType {
        WithIdAbsent(rules, "WPF0001");
      } else {
        WithIdAbsent(rules, "WPF0002");
      }
    }
  }

  /** A register call whose name is not a constant string silences the name and documentation rules. */
  lemma NonConstantNameIsSilent(f: Facts, id: string)
    requires f.registerInvocation.Some? && RegisteredName(f.registerInvocation.value).None?
    requires id in {"WPF0001", "WPF0002", "WPF0060"}
    ensures WithId(Diagnose(f), id) == []
  {
    NameRuleIds(f, id);
  }

  /**
    Without a register call the suffix check runs against the CLR property
    found by name, for WPF0001 and WPF0002 alike; the reports carry no fix
    property, and WPF0060 is not considered.
   */
  lemma NameRulesAgainstPropertyByName(f: Facts, propertyName: string)
    requires Analysed(f)
    requires f.registerInvocation.None? && f.propertyByName == Some(propertyName)
    ensures var m := f.backingMember.value;
            WithId(Diagnose(f), "WPF0001") ==
              if m.backingType == DependencyPropertyType && m.name != propertyName + "Property" then
                [Diagnostic("WPF0001", Identifier, [m.name, propertyName], map[])]
              else []
    ensures var m := f.backingMember.value;
            WithId(Diagnose(f), "WPF0002") ==
              if m.backingType == DependencyPropertyKeyType && m.name != propertyName + "PropertyKey" then
                [Diagnostic("WPF0002", Identifier, [m.name, propertyName], map[])]
              else []
    ensures WithId(Diagnose(f), "WPF0060") == []
  {
    NameRuleIds(f, "WPF0001");
    NameRuleIds(f, "WPF0002");
    NameRuleIds(f, "WPF0060");
    NameRulesById(f, f.backingMember.value, propertyName, false, "WPF0001");
    NameRulesById(f, f.backingMember.value, propertyName, false, "WPF0002");
    NameRulesById(f, f.backingMember.value, propertyName, false, "WPF0060");
  }

  /**
    WPF0060 is reported exactly for an internal or public member without a
    documentation comment, registered under a constant name that is also the
    name of a property of the containing type.
   */
  lemma Wpf0060Condition(f: Facts)
    ensures WithId(Diagnose(f), "WPF0060") != [] <==>
              && Analysed(f)
              && f.registerInvocation.Some?
              && RegisteredName(f.registerInvocation.value).Some?
              && f.accessibility in {Internal, Public}
              && !f.hasDocumentationComment
              && RegisteredName(f.registerInvocation.value).value in f.containingTypePropertyNames
  {
    NameRuleIds(f, "WPF0060");
    if Analysed(f) {
      var m := f.backingMember.value;
      if f.registerInvocation.Some? {
        if RegisteredName(f.registerInvocation.value).Some? {
          NameRulesById(f, m, RegisteredName(f.registerInvocation.value).value, true, "WPF0060");
        }
      } else if f.propertyByName.Some? {
        NameRulesById(f, m, f.propertyByName.value, false, "WPF0060");
      }
    }
  }

  /**
    WPF0031 is reported, at the field declaration, exactly when the key field
    has the same containing type, is declared in the same syntax tree, and
    starts after this field.
   */
  lemma {:induction false} Wpf0031Condition(f: Facts)
    ensures WithId(Diagnose(f), "WPF0031") ==
              if Analysed(f) && OutOfOrder(f, f.backingMember.value) then
                [Diagnostic("WPF0031", Node, [f.keyField.value.name, f.backingMember.value.name], map[])]
              else []
  {
    var tail := StaticReadonly(f);
    WithIdAbsent(tail, "WPF0031");
    if !f.excluded {
      if Analysed(f) {
        var m := f.backingMember.value;
        var rules := NameRules(f, m);
        WithIdAbsent(rules, "WPF0031");
        WithIdAppend(rules + FieldOrder(f, m), tail, "WPF0031");
        WithIdAppend(rules, FieldOrder(f, m), "WPF0031");
        WithIdAll(FieldOrder(f, m), "WPF0031");
      } else {
        assert Diagnose(f) == tail;
      }
    }
  }

  /** The number of failed static/read-only conditions of a candidate. */
  function FailedConditions(f: Facts, c: Candidate): (n: nat)
    ensures n <= 3
  {
    (if !c.isStatic then 1 else 0)
    + (if !c.symbol.isReadOnly then 1 else 0)
    + (if f.node.PropertyDeclarationNode? && f.node.hasExpressionBody then 1 else 0)
  }

  /**
    WPF0030 is reported once per failed condition of a registered candidate,
    independently of the other rules, and never without one.
   */
  lemma {:induction false} Wpf0030PerFailedCondition(f: Facts)
    ensures |WithId(Diagnose(f), "WPF0030")| ==
              if !f.excluded && f.candidate.Some? && f.candidateHasRegisterInvocation then FailedConditions(f, f.candidate.value)
              else 0
    ensures forall d :: d in WithId(Diagnose(f), "WPF0030") ==>
              d.location == Node && d.args == [f.candidate.value.name, f.candidate.value.typeName]
  {
    if !f.excluded {
      var head := if !f.node.OtherNode? && f.backingMember.Some? then
                    NameRules(f, f.backingMember.value) + FieldOrder(f, f.backingMember.value)
                  else [];
      assert Diagnose(f) == head + StaticReadonly(f);
      WithIdAbsent(head, "WPF0030");
      WithIdAppend(head, StaticReadonly(f), "WPF0030");
      WithIdAll(StaticReadonly(f), "WPF0030");
      if f.candidate.Some? && f.candidateHasRegisterInvocation {
        StaticReadonlyShape(f);
      }
    }
  }

  /** The reports of a registered candidate: one per failed condition, all alike. */
  lemma StaticReadonlyShape(f: Facts)
    requires f.candidate.Some? && f.candidateHasRegisterInvocation
    ensures |StaticReadonly(f)| == FailedConditions(f, f.candidate.value)
    ensures forall d :: d in StaticReadonly(f) ==>
              d.location == Node && d.args == [f.candidate.value.name, f.candidate.value.typeName]
  {
    var c := f.candidate.value;
    var a := StaticReadonlyReport(!c.isStatic, c);
    var b := StaticReadonlyReport(c.symbol.FieldSymbol? && !c.symbol.isReadOnly, c);
    var p := StaticReadonlyReport(c.symbol.PropertySymbol? && !c.symbol.isReadOnly, c);
    var e := StaticReadonlyReport(f.node.PropertyDeclarationNode? && f.node.hasExpressionBody, c);
    assert StaticReadonly(f) == a + b + p + e;
    assert |b + p| == if !c.symbol.isReadOnly then 1 else 0;
  }

  /** The example: a registered, non-static, non-read-only field gets two WPF0030. */
  lemma NonStaticMutableFieldGetsTwo(f: Facts)
    requires !f.excluded && f.candidateHasRegisterInvocation
    requires f.candidate.Some? && !f.candidate.value.isStatic && f.candidate.value.symbol == FieldSymbol(false)
    requires f.node.FieldDeclarationNode?
    ensures |WithId(Diagnose(f), "WPF0030")| == 2
  {
    Wpf0030PerFailedCondition(f);
  }
}
