/**
  InvocationExpressionSyntaxExt (first generation): the name of the method an
  invocation calls, read off the shape of its callee, and the DependencyObject
  calls recognised by name and argument count.
 */
module InvocationSyntax {
  import opened Host

  /** The name part of a member access: `x.Name` or `x.Name<T>`. */
  datatype SimpleName = IdentifierName(valueText: string) | GenericName(valueText: string)

  /** The callee of an invocation. */
  datatype Callee =
    | IdentifierCallee(valueText: string)  // Name(...)
    | MemberAccess(name: SimpleName)  // x.Name(...) or x.Name<T>(...)
    | OtherCallee                     // anything else: x?.Name(...), Name<T>(...), a call on a call, ...

  /** An invocation expression: its callee and the number of arguments in its argument list, if it has one. */
  datatype Invocation = Invocation(callee: Callee, argumentCount: Option<nat>)

  const GetValueName := "GetValue"
  const SetValueName := "SetValue"
  const SetCurrentValueName := "SetCurrentValue"

  /**
    `Name`: the text of the identifier that names the called method, when the
    callee is an identifier or a member access whose name is an identifier.
   */
  function Name(invocation: Option<Invocation>): (r: Option<string>)
    ensures invocation.None? ==> r.None?
    ensures r.Some? ==> invocation.Some? && (invocation.value.callee == IdentifierCallee(r.value) ||
                                             invocation.value.callee == MemberAccess(IdentifierName(r.value)))
  {
    match invocation
    case None => None
    case Some(call) =>
      match call.callee
      case IdentifierCallee(text) => Some(text)
      case MemberAccess(IdentifierName(text)) => Some(text)
      case _ => None
  }

  /** The argument count, when both the invocation and its argument list exist. */
  function ArgumentCount(invocation: Option<Invocation>): Option<nat> {
    match invocation
    case Some(call) => call.argumentCount
    case None => None
  }

  predicate IsNameOf(invocation: Option<Invocation>) {
    Name(invocation) == Some("nameof")
  }

  predicate IsGetValue(invocation: Option<Invocation>) {
    Name(invocation) == Some(GetValueName) && ArgumentCount(invocation) == Some(1)
  }

  predicate IsSetValue(invocation: Option<Invocation>) {
    Name(invocation) == Some(SetValueName) && ArgumentCount(invocation) == Some(2)
  }

  predicate IsSetSetCurrentValue(invocation: Option<Invocation>) {
    Name(invocation) == Some(SetCurrentValueName) && ArgumentCount(invocation) == Some(2)
  }

  // ---------------------------------------------------------------------
  // Properties

  /**
    `Name` finds exactly the identifier of a plain or member-access callee;
    every other shape, a generic name included, has no name.
   */
  lemma NameIsTheCalledIdentifier(call: Invocation, text: string)
    ensures Name(Some(call)) == Some(text) <==> call.callee == IdentifierCallee(text) || call.callee == MemberAccess(IdentifierName(text))
    ensures Name(Some(call)).None? <==> call.callee.OtherCallee? || (call.callee.MemberAccess? && call.callee.name.GenericName?)
  {
  }

  /** The name depends on the callee alone, not on the arguments. */
  lemma NameIgnoresArguments(a: Invocation, b: Invocation)
    requires a.callee == b.callee
    ensures Name(Some(a)) == Name(Some(b))
  {
  }

  /** `nameof(x)` and `this.nameof(x)` are both seen as nameof; `x.nameof<T>()` is not. */
  lemma NameOfShapes(count: Option<nat>)
    ensures IsNameOf(Some(Invocation(IdentifierCallee("nameof"), count)))
    ensures IsNameOf(Some(Invocation(MemberAccess(IdentifierName("nameof")), count)))
    ensures !IsNameOf(Some(Invocation(MemberAccess(GenericName("nameof")), count)))
    ensures !IsNameOf(None)
  {
  }

  /**
    The three DependencyObject calls are told apart by name and argument
    count: no invocation is two of them, and a recognised GetValue has one
    argument, a recognised SetValue or SetCurrentValue two.
   */
  lemma CallsAreExclusive(invocation: Option<Invocation>)
    ensures !(IsGetValue(invocation) && IsSetValue(invocation))
    ensures !(IsGetValue(invocation) && IsSetSetCurrentValue(invocation))
    ensures !(IsSetValue(invocation) && IsSetSetCurrentValue(invocation))
    ensures IsGetValue(invocation) ==> invocation.Some? && invocation.value.argumentCount == Some(1)
    ensures IsSetValue(invocation) || IsSetSetCurrentValue(invocation) ==> invocation.Some? && invocation.value.argumentCount == Some(2)
  {
  }

  /** A call with the right name but the wrong number of arguments, or without an argument list, is not recognised. */
  lemma WrongArityIsNotRecognised(callee: Callee, count: Option<nat>)
    requires count != Some(1) && count != Some(2)
    ensures !IsGetValue(Some(Invocation(callee, count)))
    ensures !IsSetValue(Some(Invocation(callee, count)))
    ensures !IsSetSetCurrentValue(Some(Invocation(callee, count)))
  {
  }
}
