/**
  The vocabulary the analyzers share with their host, the compiler's analysis
  pipeline: optional answers of the semantic model, argument expressions as far
  as the rules look at them, the diagnostics they report and the channel they
  report them through.
 */
module Host {

  /** An answer the semantic model may fail to give (C#'s null / a false TryGet). */
  datatype Option<T> = None | Some(value: T)

  /** A resolved type, identified by its fully qualified name; equal ids are the same type. */
  type TypeId = string

  const ObjectType: TypeId := "System.Object"
  const DependencyObjectType: TypeId := "System.Windows.DependencyObject"

  /** The text a message shows for a type argument that may be null (null formats as ""). */
  function TypeText(t: Option<TypeId>): (r: string)
    ensures t.Some? ==> r == t.value
    ensures t.None? ==> r == ""
  {
    match t
    case Some(id) => id
    case None => ""
  }

  /** Roslyn's Accessibility enumeration. */
  datatype Accessibility =
    | NotApplicable
    | Private
    | ProtectedAndInternal
    | Protected
    | Internal
    | ProtectedOrInternal
    | Public

  datatype Severity = Hidden | Info | Warning | Error

  /** A rule's static catalog entry. */
  datatype Descriptor = Descriptor(id: string, severity: Severity, messageFormat: string)

  /** Where a diagnostic is reported, relative to the analysed node. */
  datatype Location =
    | Identifier                        // the identifier token of the analysed declaration
    | Node                              // the whole analysed syntax node
    | BodyStatement(index: nat)         // a statement of a method's block body
    | SetterStatement(index: nat)       // a statement of a property's set accessor
    | GetterStatement(index: nat)       // a statement of a property's get accessor
    | ParameterTypeSyntax(index: nat)   // the type syntax of a method parameter
    | ReturnTypeSyntax                  // the return type syntax of a method
    | PropertyTypeSyntax                // the type syntax of a property
    | SetCall                           // the SetValue/SetCurrentValue invocation of a setter
    | ArgumentNode(parameter: string)   // the argument bound to the named parameter
    | ArgumentExpression(parameter: string) // the expression of that argument
    | SingleArgument                    // the only argument of an attribute
    | ArgumentList                      // the argument list of an object creation
    | DefaultMemberValue(index: nat)    // the value assigned to a converter's default member

  /** A reported diagnostic: rule id, location, message arguments and fix properties. */
  datatype Diagnostic = Diagnostic(id: string, location: Location, args: seq<string>, properties: map<string, string>)

  /** The host's reporting channel: every ReportDiagnostic call appends one diagnostic. */
  class DiagnosticSink {
    var reported: seq<Diagnostic>

    constructor ()
      ensures reported == []
    {
      reported := [];
    }

    method Report(d: Diagnostic)
      modifies this
      ensures reported == old(reported) + [d]
    {
      reported := reported + [d];
    }
  }

  /** The diagnostics of `ds` that carry rule id `id`, in order. */
  function WithId(ds: seq<Diagnostic>, id: string): (r: seq<Diagnostic>)
    ensures |r| <= |ds|
    ensures forall d :: d in r <==> d in ds && d.id == id
  {
    if ds == [] then []
    else (if ds[0].id == id then [ds[0]] else []) + WithId(ds[1..], id)
  }

  lemma {:induction false} WithIdAppend(a: seq<Diagnostic>, b: seq<Diagnostic>, id: string)
    ensures WithId(a + b, id) == WithId(a, id) + WithId(b, id)
  {
    if a == [] {
      assert a + b == b;
    } else {
      assert (a + b)[0] == a[0];
      assert (a + b)[1..] == a[1..] + b;
      WithIdAppend(a[1..], b, id);
    }
  }

  /** A sequence whose diagnostics all carry another id filters to nothing. */
  lemma WithIdAbsent(ds: seq<Diagnostic>, id: string)
    requires forall d :: d in ds ==> d.id != id
    ensures WithId(ds, id) == []
  {
    if WithId(ds, id) != [] {
      assert WithId(ds, id)[0] in WithId(ds, id);
    }
  }

  /** A sequence whose diagnostics all carry `id` filters to itself. */
  lemma {:induction false} WithIdAll(ds: seq<Diagnostic>, id: string)
    requires forall d :: d in ds ==> d.id == id
    ensures WithId(ds, id) == ds
  {
    if ds != [] {
      assert ds[0] in ds;
      assert forall d :: d in ds[1..] ==> d in ds;
      WithIdAll(ds[1..], id);
    }
  }

  /** A piece whose diagnostics all carry `own` filters to itself, or to nothing for another id. */
  lemma WithIdPiece(ds: seq<Diagnostic>, own: string, id: string)
    requires forall d :: d in ds ==> d.id == own
    ensures WithId(ds, id) == if id == own then ds else []
  {
    if id == own {
      WithIdAll(ds, id);
    } else {
      WithIdAbsent(ds, id);
    }
  }

  /** A statement of a block body, reduced to the invocation nodes it contains. */
  datatype Statement = Statement(invocations: set<nat>)

  /**
    The first statement that does not contain the invocation `call`:
    `statements.TryFirst(x => !x.Contains(call))`.
   */
  function FirstWithout(statements: seq<Statement>, call: nat): (r: Option<nat>)
    ensures r.Some? ==> r.value < |statements| && call !in statements[r.value].invocations
    ensures r.Some? ==> forall j :: 0 <= j < r.value ==> call in statements[j].invocations
    ensures r.None? ==> forall j :: 0 <= j < |statements| ==> call in statements[j].invocations
  {
    if statements == [] then None
    else if call !in statements[0].invocations then Some(0)
    else match FirstWithout(statements[1..], call)
      case None => None
      case Some(k) => Some(k + 1)
  }

  /** What the semantic model says about an argument expression. */
  datatype Expression =
    | TypeOf(typeArgument: Option<TypeId>)  // typeof(T), with T resolved when possible
    | StringConstant(value: string)         // a compile-time constant string (literal, nameof, const)
    | NonConstant                           // any other expression

  /**
    An argument of an attribute or an object creation: its `name:` / `Name =`
    label if it has one, its expression and its source text.
   */
  datatype Argument = Argument(name: Option<string>, expression: Expression, text: string)

  /** The index of the first argument labelled `name`, from `from` on. */
  function FindNamed(args: seq<Argument>, name: string, from: nat): (r: Option<nat>)
    requires from <= |args|
    ensures r.Some? ==> from <= r.value < |args| && args[r.value].name == Some(name)
    ensures r.None? ==> forall j :: from <= j < |args| ==> args[j].name != Some(name)
    decreases |args| - from
  {
    if from == |args| then None
    else if args[from].name == Some(name) then Some(from)
    else FindNamed(args, name, from + 1)
  }

  /**
    `Attribute.TryFindArgument(attribute, index, name)`: the argument labelled
    `name` when there is one, otherwise the argument at position `index`.
   */
  function FindArgument(args: seq<Argument>, index: nat, name: string): (r: Option<nat>)
    ensures r.Some? ==> r.value < |args|
    ensures (exists j :: 0 <= j < |args| && args[j].name == Some(name)) ==> r.Some? && args[r.value].name == Some(name)
    ensures (forall j :: 0 <= j < |args| ==> args[j].name != Some(name)) ==>
              r == if index < |args| then Some(index) else None
  {
    match FindNamed(args, name, 0)
    case Some(j) => Some(j)
    case None => if index < |args| then Some(index) else None
  }

  /** Which argument `FindArgument` finds depends only on the arguments' labels. */
  lemma {:induction false} FindArgumentByLabels(a: seq<Argument>, b: seq<Argument>, index: nat, name: string)
    requires |a| == |b| && forall j :: 0 <= j < |a| ==> a[j].name == b[j].name
    ensures FindArgument(a, index, name) == FindArgument(b, index, name)
  {
    FindNamedByLabels(a, b, name, 0);
  }

  lemma {:induction false} FindNamedByLabels(a: seq<Argument>, b: seq<Argument>, name: string, from: nat)
    requires from <= |a| == |b| && forall j :: 0 <= j < |a| ==> a[j].name == b[j].name
    ensures FindNamed(a, name, from) == FindNamed(b, name, from)
    decreases |a| - from
  {
    if from < |a| {
      FindNamedByLabels(a, b, name, from + 1);
    }
  }

  /** The expression of the argument `FindArgument` finds, if any. */
  function FoundExpression(args: seq<Argument>, index: nat, name: string): (r: Option<Expression>)
    ensures FindArgument(args, index, name).None? <==> r.None?
    ensures r.Some? ==> r.value == args[FindArgument(args, index, name).value].expression
  {
    match FindArgument(args, index, name)
    case Some(j) => Some(args[j].expression)
    case None => None
  }
}

/** Ordinal string comparisons and Gu.Roslyn's `IsParts`. */
module Text {

  predicate StartsWith(s: string, prefix: string) {
    |prefix| <= |s| && s[..|prefix|] == prefix
  }

  predicate EndsWith(s: string, suffix: string) {
    |suffix| <= |s| && s[|s| - |suffix|..] == suffix
  }

  /** `s.IsParts(start, end)`: `s` is exactly `start` followed by `end`. */
  predicate IsParts(s: string, start: string, end: string) {
    s == start + end
  }

  /** The length / prefix / suffix test is the same as concatenation equality. */
  lemma LengthPrefixSuffix(s: string, start: string, end: string)
    ensures (|s| == |start| + |end| && StartsWith(s, start) && EndsWith(s, end)) <==> IsParts(s, start, end)
  {
    if |s| == |start| + |end| && StartsWith(s, start) && EndsWith(s, end) {
      assert s == s[..|start|] + s[|start|..];
    }
    if IsParts(s, start, end) {
      assert s[..|start|] == start;
      assert s[|s| - |end|..] == end;
    }
  }
}
