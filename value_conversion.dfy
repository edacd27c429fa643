/**
  What the value-converter rules share: the source and target types
  `ValueConverter.TryGetConversionTypes` infers from a converter's Convert
  method, either of which may be unknown.
 */
module ValueConversion {
  import opened Host

  datatype ConversionTypes = ConversionTypes(source: Option<TypeId>, target: Option<TypeId>)

  /** A type member that holds a shared converter instance, with the type of the value assigned to it. */
  datatype DefaultMember = DefaultMember(assignedValueType: Option<TypeId>)

  /** The type a `typeof` argument names, when the argument is a `typeof` whose type resolves. */
  function TypeOfArgument(args: seq<Argument>, index: nat, parameter: string): Option<TypeId> {
    match FoundExpression(args, index, parameter)
    case Some(TypeOf(Some(t))) => Some(t)
    case _ => None
  }

  /**
    WPF0072 at the argument for `parameter` with the expected type as message
    argument, when that argument is a `typeof` of a type other than `expected`.
    An argument that is not a `typeof`, or whose type does not resolve, is not checked.
   */
  function TypeOfMismatch(args: seq<Argument>, index: nat, parameter: string, expected: Option<TypeId>): (r: seq<Diagnostic>)
    ensures forall d :: d in r ==> d.id == "WPF0072"
    ensures r != [] <==> TypeOfArgument(args, index, parameter).Some? && TypeOfArgument(args, index, parameter) != expected
    ensures r != [] ==> r == [Diagnostic("WPF0072", ArgumentNode(parameter), [TypeText(expected)], map[])]
  {
    match FoundExpression(args, index, parameter)
    case Some(TypeOf(Some(argType))) =>
      if Some(argType) != expected then [Diagnostic("WPF0072", ArgumentNode(parameter), [TypeText(expected)], map[])] else []
    case _ => []
  }
}
