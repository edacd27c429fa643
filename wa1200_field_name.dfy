/**
  WA1200 (first generation): a DependencyProperty backing field must be named
  after the name the property is registered under, followed by "Property".
 */
module FieldNameMustMatchRegisteredName {
  import opened Host
  import opened Text

  const DiagnosticId := "WA1200"
  const Suffix := "Property"

  const Rule := Descriptor(
    DiagnosticId,
    Warning,
    "Field '{0}' that is backing field for the DependencyProperty registered as '{1}' must be named '{1}Property'")

  /**
    A field declaration as the rule sees it: whether the node is missing
    (an editor mid-typing), whether its declared type is DependencyProperty,
    the name of its first variable and the registered name, when they resolve.
   */
  datatype FieldDeclaration = FieldDeclaration(
    isMissing: bool,
    isDependencyPropertyType: bool,
    name: Option<string>,
    registeredName: Option<string>)

  /** The exact-length check followed by an ordinal prefix and suffix test. */
  function IsMatch(name: string, registeredName: string): (r: bool)
    ensures r <==> name == registeredName + Suffix
    ensures |name| != |registeredName| + |Suffix| ==> !r
  {
    LengthPrefixSuffix(name, registeredName, Suffix);
    if |name| != |registeredName| + |Suffix| then false
    else StartsWith(name, registeredName) && EndsWith(name, Suffix)
  }

  /**
    The rule for one node; `node` is None when the analysed node is not a
    field declaration.
   */
  function HandleFieldDeclaration(node: Option<FieldDeclaration>): (r: Option<Diagnostic>)
    ensures r.Some? <==>
              && node.Some?
              && !node.value.isMissing
              && node.value.isDependencyPropertyType
              && node.value.name.Some?
              && node.value.registeredName.Some?
              && node.value.name.value != node.value.registeredName.value + Suffix
    ensures r.Some? ==>
              r.value == Diagnostic(Rule.id, Identifier, [node.value.name.value, node.value.registeredName.value], map[])
  {
    if node.None? || node.value.isMissing || !node.value.isDependencyPropertyType then None
    else match node.value.name
      case None => None
      case Some(fieldName) =>
        match node.value.registeredName
        case None => None
        case Some(registeredName) =>
          if !IsMatch(fieldName, registeredName) then
            Some(Diagnostic(Rule.id, Identifier, [fieldName, registeredName], map[]))
          else None
  }

  /** Near-misses are rejected: an extra character, a case difference. */
  lemma NearMissesDoNotMatch()
    ensures !IsMatch("BarPropertyX", "Bar")
    ensures !IsMatch("barProperty", "Bar")
    ensures !IsMatch("Bar", "Bar")
    ensures IsMatch("BarProperty", "Bar")
  {
    assert "BarProperty" == "Bar" + Suffix;
    assert "barProperty"[0] != ("Bar" + Suffix)[0];
  }

  /** A registered name that does not resolve never produces WA1200, whatever the field's name. */
  lemma UnresolvedNameNeverReports(node: FieldDeclaration)
    requires node.registeredName.None?
    ensures HandleFieldDeclaration(Some(node)).None?
  {
  }
}
