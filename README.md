# WpfAnalyzers rule decisions in Dafny

WpfAnalyzers is a set of Roslyn analyzers and code fixes for WPF code: dependency
properties, their CLR wrappers and attached-property accessors, WPF attributes,
`ComponentResourceKey` declarations and value converters. This project models
the part of each analyzer that decides what to report. Given what the semantic model
answers about one syntax node, it fixes which diagnostics are reported, in what
order, at which location, with which message arguments and which fix properties.
It also models what the two code fixes `UseContainingTypeFix` and
`ChangeValueConversionAttributeArgumentFix` register and edit, and two syntax and
symbol helpers: `InvocationExpressionSyntaxExt` and `TypeSymbolExt.RecursiveBaseTypes`.

Each analyzer is modelled in two parts, matching the source:

- A pure `Diagnose(facts)` function is the specification. It concatenates one function
  per rule, in reporting order.
- An imperative `Handle` method reports into a `DiagnosticSink` class. That class stands
  for the host's `ReportDiagnostic`. `Handle` follows the source's branches and is proved to
  append exactly `Diagnose(facts)`.

The lemmas state each rule's firing condition as an if-and-only-if, together with its
payload, its exclusions and its independence from other rules. They filter the reported
sequence by diagnostic id (`Host.WithId`). Fix providers are modelled as loops over the
batch of diagnostics and are proved against a recursive `Registered` function. Small editor
classes stand for Roslyn's `DocumentEditor`. Both edits are proved to silence the
diagnostic they fix. For `ChangeValueConversionAttributeArgumentFix` that holds for the
edit only: as written, its guard registers the fix for no WPF0072 the analyzers report
(see "## Findings").

The semantic questions the analyzers put to Roslyn or to Gu.Roslyn.Extensions are input
fields of a `Facts` datatype. These cover type lookups, `IsAssignableTo`, constant values,
`TryGetConversionTypes`, `Mutable.*`, `Virtual.*`, `ConstructorArgument.IsMatch` and
`ToMinimalDisplayString`. An unresolved answer is `None`. Types are identified by their
full name (`Host.TypeId`). A few syntax helpers are defined in `host.dfy` by their evident
meaning instead: argument lookup, `IsParts` and the first statement without a call. They
are listed under "## Left out".

Files:

- `host.dfy`: the shared host, with `Option`, `Diagnostic`, locations, the sink, id
  filtering, statements and attribute arguments, plus ordinal string tests.
- One file per core source file.
- `value_conversion.dfy`: the conversion types and the WPF0072 typeof check, which the two
  converter analyzers share.

Modelling choices the code forces:

- The current ValueConverterAnalyzer exempts an `object` source type. The first-generation
  analyzer does not.
- `ChangeValueConversionAttributeArgumentFix` registers under the title "Add default field."

## Model

| member | source | states |
|---|---|---|
| FieldNameMustMatchRegisteredName.IsMatch | WpfAnalyzers.Analyzers/DependencyProperties/WA1200FieldNameMustMatchRegisteredName.cs:75-84 | the length check plus the ordinal prefix and suffix tests hold exactly when the field's name is the registered name followed by "Property" |
| FieldNameMustMatchRegisteredName.HandleFieldDeclaration | WpfAnalyzers.Analyzers/DependencyProperties/WA1200FieldNameMustMatchRegisteredName.cs:46-73 | WA1200 is reported exactly for a present DependencyProperty field whose name and registered name both resolve and the name is not registered name + "Property"; the report carries the field name and the registered name |
| FieldNameMustMatchRegisteredName.NearMissesDoNotMatch | WpfAnalyzers.Analyzers/DependencyProperties/WA1200FieldNameMustMatchRegisteredName.cs:75-84 | a trailing character, a case difference or a missing suffix is not a match; the exact name is |
| FieldNameMustMatchRegisteredName.UnresolvedNameNeverReports | WpfAnalyzers.Analyzers/DependencyProperties/WA1200FieldNameMustMatchRegisteredName.cs:62-66 | a registered name that does not resolve never gives WA1200 |
| BackingFieldOrPropertyAnalyzer.Handle | WpfAnalyzers/NodeAnalyzers/DependencyPropertyBackingFieldOrPropertyAnalyzer.cs:29-169 | the node action reports exactly the name rules, the field-order rule and the static/read-only rule, in that order |
| BackingFieldOrPropertyAnalyzer.Wpf0001AgainstRegisteredName | WpfAnalyzers/NodeAnalyzers/DependencyPropertyBackingFieldOrPropertyAnalyzer.cs:44-54 | with a constant registered name, WPF0001 is reported, with the expected name as fix property, exactly when a DependencyProperty member is not named registered name + "Property" |
| BackingFieldOrPropertyAnalyzer.Wpf0002AgainstRegisteredName | WpfAnalyzers/NodeAnalyzers/DependencyPropertyBackingFieldOrPropertyAnalyzer.cs:56-66 | the same for a DependencyPropertyKey member and the suffix "PropertyKey" (WPF0002) |
| BackingFieldOrPropertyAnalyzer.Wpf0001AndWpf0002Exclusive | WpfAnalyzers/NodeAnalyzers/DependencyPropertyBackingFieldOrPropertyAnalyzer.cs:44-66 | one member never gets both WPF0001 and WPF0002 |
| BackingFieldOrPropertyAnalyzer.NonConstantNameIsSilent | WpfAnalyzers/NodeAnalyzers/DependencyPropertyBackingFieldOrPropertyAnalyzer.cs:39-42 | a register call whose name is not a constant string gives no WPF0001, WPF0002 or WPF0060 |
| BackingFieldOrPropertyAnalyzer.NameRulesAgainstPropertyByName | WpfAnalyzers/NodeAnalyzers/DependencyPropertyBackingFieldOrPropertyAnalyzer.cs:79-102 | without a register call, the suffix checks run against the CLR property found by name. WPF0001 fires exactly for a DependencyProperty member not named property + "Property", and WPF0002 exactly for a DependencyPropertyKey member not named property + "PropertyKey". Both name the member and the property and carry no fix property, and WPF0060 is never reported |
| BackingFieldOrPropertyAnalyzer.Wpf0060Condition | WpfAnalyzers/NodeAnalyzers/DependencyPropertyBackingFieldOrPropertyAnalyzer.cs:68-76 | WPF0060 is reported exactly for an internal or public member without a documentation comment whose constant registered name is the name of a property of the containing type |
| BackingFieldOrPropertyAnalyzer.Wpf0031Condition | WpfAnalyzers/NodeAnalyzers/DependencyPropertyBackingFieldOrPropertyAnalyzer.cs:104-120 | WPF0031 is reported exactly when the key field has the same containing type, lies in the same syntax tree and starts after this field; it names both fields |
| BackingFieldOrPropertyAnalyzer.Wpf0030PerFailedCondition | WpfAnalyzers/NodeAnalyzers/DependencyPropertyBackingFieldOrPropertyAnalyzer.cs:123-168 | a registered candidate gets one WPF0030 per failed condition and none otherwise, each at the declaration and naming the member and its type |
| BackingFieldOrPropertyAnalyzer.StaticReadonlyShape | WpfAnalyzers/NodeAnalyzers/DependencyPropertyBackingFieldOrPropertyAnalyzer.cs:131-166 | the four checks (not static, mutable field, settable property, expression body) report as many times as the conditions fail, all alike |
| BackingFieldOrPropertyAnalyzer.NonStaticMutableFieldGetsTwo | WpfAnalyzers/NodeAnalyzers/DependencyPropertyBackingFieldOrPropertyAnalyzer.cs:131-145 | a registered field that is neither static nor read-only gets exactly two WPF0030 |
| ClrMethodAnalyzer.BranchOf | WpfAnalyzers/NodeAnalyzers/ClrMethodDeclarationAnalyzer.cs:43-81 | the attached-property setter branch is taken when the method is an attached Set accessor, otherwise the getter branch when it is a Get accessor |
| ClrMethodAnalyzer.Handle | WpfAnalyzers/NodeAnalyzers/ClrMethodDeclarationAnalyzer.cs:30-144 | the node action reports exactly the rules of the branch that applies, in the source's order, and nothing for an ineligible method |
| ClrMethodAnalyzer.IneligibleIsSilent | WpfAnalyzers/NodeAnalyzers/ClrMethodDeclarationAnalyzer.cs:37-41 | nothing is reported unless the method is static with a first parameter assignable to DependencyObject |
| ClrMethodAnalyzer.Wpf0004Condition | WpfAnalyzers/NodeAnalyzers/ClrMethodDeclarationAnalyzer.cs:46-56 | WPF0004 is reported exactly when the applicable accessor's registered name resolves and the method is not "Set"/"Get" + that name; the fix property proposes that name |
| ClrMethodAnalyzer.Wpf0013Condition | WpfAnalyzers/NodeAnalyzers/ClrMethodDeclarationAnalyzer.cs:58-67 | WPF0013 compares the value parameter's type (set) or the return type (get) with the registered type and is reported at that type's syntax |
| ClrMethodAnalyzer.Wpf0042FirstOffendingStatement | WpfAnalyzers/NodeAnalyzers/ClrMethodDeclarationAnalyzer.cs:69-73 | WPF0042 is reported at most once, for a block body, at the first statement that does not contain the accessor's call; every earlier statement contains it |
| ClrMethodAnalyzer.Wpf0061Condition | WpfAnalyzers/NodeAnalyzers/ClrMethodDeclarationAnalyzer.cs:75-79 | WPF0061 is reported exactly for a protected, internal or public accessor without a documentation comment |
| ClrMethodAnalyzer.BrowsableAttributeCases | WpfAnalyzers/NodeAnalyzers/ClrMethodDeclarationAnalyzer.cs:118-141 | in the getter branch, WPF0033 is reported exactly without the AttachedPropertyBrowsableForType attribute, WPF0034 exactly when its single typeof argument is not assignable to the first parameter's type, never both |
| ClrPropertyAnalyzer.LastCallIsLast | WpfAnalyzers/Analyzers/ClrPropertyDeclarationAnalyzer.cs:123-140 | the call the walker holds for an accessor kind is a recorded call of that kind with none recorded after it; none is held exactly when none was recorded |
| ClrPropertyAnalyzer.PropertyDeclarationWalker.TryGetCalls | WpfAnalyzers/Analyzers/ClrPropertyDeclarationAnalyzer.cs:113-121 | walking the invocations leaves the last get call and the last set call, and reports success exactly when one was found |
| ClrPropertyAnalyzer.PropertyDeclarationWalker.VisitInvocationExpression | WpfAnalyzers/Analyzers/ClrPropertyDeclarationAnalyzer.cs:123-140 | a GetValue/SetValue/SetCurrentValue call inside a get (set) accessor overwrites the get (set) call; nothing else changes |
| ClrPropertyAnalyzer.PropertyDeclarationWalker.Clear | WpfAnalyzers/Analyzers/ClrPropertyDeclarationAnalyzer.cs:142-146 | both calls are forgotten |
| ClrPropertyAnalyzer.Handle | WpfAnalyzers/Analyzers/ClrPropertyDeclarationAnalyzer.cs:29-106 | the node action reports exactly WPF0036 (setter, getter), WPF0032, WPF0035, WPF0003, WPF0012 in that order once a call was found |
| ClrPropertyAnalyzer.SideEffectCondition | WpfAnalyzers/Analyzers/ClrPropertyDeclarationAnalyzer.cs:38-52 | WPF0036 fires for an accessor exactly when its block body has a statement without the call, at the first such statement |
| ClrPropertyAnalyzer.NoCallsIsSilent | WpfAnalyzers/Analyzers/ClrPropertyDeclarationAnalyzer.cs:36-37 | a property whose accessors contain no recorded call gets no diagnostic |
| ClrPropertyAnalyzer.CallsFollowAccessorKind | WpfAnalyzers/Analyzers/ClrPropertyDeclarationAnalyzer.cs:129-137 | the get call comes from a get accessor and the set call from a set accessor |
| ClrPropertyAnalyzer.LaterSetCallWins | WpfAnalyzers/Analyzers/ClrPropertyDeclarationAnalyzer.cs:134-137 | of two recorded set calls the later one is kept |
| ClrPropertyAnalyzer.Wpf0036OncePerAccessor | WpfAnalyzers/Analyzers/ClrPropertyDeclarationAnalyzer.cs:38-52 | at most one WPF0036 per accessor, the setter's before the getter's |
| ClrPropertyAnalyzer.Wpf0032Condition | WpfAnalyzers/Analyzers/ClrPropertyDeclarationAnalyzer.cs:54-66 | WPF0032 is reported exactly when both calls' first arguments are identifiers that differ and the setter's is not the getter's followed by "Key" |
| ClrPropertyAnalyzer.KeySetterIsAccepted | WpfAnalyzers/Analyzers/ClrPropertyDeclarationAnalyzer.cs:56-59 | a setter using `BarPropertyKey` with a getter using `BarProperty` is not a WPF0032 |
| ClrPropertyAnalyzer.Wpf0035Condition | WpfAnalyzers/Analyzers/ClrPropertyDeclarationAnalyzer.cs:68-77 | WPF0035 is reported at the set call exactly when the setter's call is not SetValue |
| ClrPropertyAnalyzer.Wpf0003Condition | WpfAnalyzers/Analyzers/ClrPropertyDeclarationAnalyzer.cs:81-91 | WPF0003 is reported exactly when the registered name resolves and differs from the property's name, with it as expected-name fix property |
| ClrPropertyAnalyzer.Wpf0012Condition | WpfAnalyzers/Analyzers/ClrPropertyDeclarationAnalyzer.cs:93-103 | WPF0012 is reported at the property type exactly when the registered type resolves and differs, with its display text as fix property |
| AttributeAnalyzer.Handle | WpfAnalyzers/Analyzers/AttributeAnalyzer.cs:32-95 | the else-if chain over the attribute type reports exactly `Diagnose`, at most one diagnostic |
| AttributeAnalyzer.TypeOfArgument | WpfAnalyzers/Analyzers/AttributeAnalyzer.cs:45-58 | an argument has a type exactly when it is a typeof whose type resolves, and that type is the one named |
| AttributeAnalyzer.OnlyOwnAttributeType | WpfAnalyzers/Analyzers/AttributeAnalyzer.cs:35-93 | each rule applies to its own attribute type only |
| AttributeAnalyzer.HandlerSignaturesExclusive | WpfAnalyzers/Analyzers/AttributeAnalyzer.cs:97-115 | no method has both handler signatures |
| AttributeAnalyzer.HandlerSignature | WpfAnalyzers/Analyzers/AttributeAnalyzer.cs:97-115 | a handler is a void-returning method of exactly two parameters, object and the markup-extension (type-converter) event args |
| AttributeAnalyzer.HandlerConditions | WpfAnalyzers/Analyzers/AttributeAnalyzer.cs:73-86 | WPF0084 (WPF0085) is reported exactly when the handler argument is a constant and no method of that name along the type has the matching signature |
| AttributeAnalyzer.Wpf0132Condition | WpfAnalyzers/Analyzers/AttributeAnalyzer.cs:87-93 | WPF0132 is reported exactly for a TemplatePart whose Name is a constant not starting with "PART_" |
| AttributeAnalyzer.PartPrefixExamples | WpfAnalyzers/Analyzers/AttributeAnalyzer.cs:89-90 | the "PART_" test is ordinal and case-sensitive |
| AttributeAnalyzer.Wpf0082Condition | WpfAnalyzers/Analyzers/AttributeAnalyzer.cs:59-72 | WPF0082 is reported exactly when the argument name and the parameter name resolve and differ, with the parameter name as fix property |
| AttributeAnalyzer.Wpf0081Condition | WpfAnalyzers/Analyzers/AttributeAnalyzer.cs:45-58 | WPF0081 needs a concrete MarkupExtension, a known return type other than object and a typeof argument naming another type |
| AttributeAnalyzer.Wpf0051Condition | WpfAnalyzers/Analyzers/AttributeAnalyzer.cs:37-44 | WPF0051 is reported exactly when the clrNamespace argument is a constant that no namespace with a matching last part displays as |
| ComponentResourceKeyAnalyzer.ParameterIndex | WpfAnalyzers/Analyzers/ComponentResourceKeyAnalyzer.cs:48-49 | the constructor parameter lookup finds the position of that name, or reports it absent |
| ComponentResourceKeyAnalyzer.Handle | WpfAnalyzers/Analyzers/ComponentResourceKeyAnalyzer.cs:26-75 | the node action reports exactly `Diagnose` |
| ComponentResourceKeyAnalyzer.IneligibleIsSilent | WpfAnalyzers/Analyzers/ComponentResourceKeyAnalyzer.cs:28-33 | nothing without an argument list, a resolved constructor and a containing field or property |
| ComponentResourceKeyAnalyzer.ParameterlessProposal | WpfAnalyzers/Analyzers/ComponentResourceKeyAnalyzer.cs:35-45 | a parameterless creation gets exactly one WPF0140 on the argument list proposing `typeof(Type), nameof(Member)` |
| ComponentResourceKeyAnalyzer.ProposalNamesTheMember | WpfAnalyzers/Analyzers/ComponentResourceKeyAnalyzer.cs:38-42 | different members give different proposals |
| ComponentResourceKeyAnalyzer.Wpf0140Condition | WpfAnalyzers/Analyzers/ComponentResourceKeyAnalyzer.cs:48-58 | with parameters, WPF0140 is reported at typeInTargetAssembly exactly when it is a typeof of another type than the containing one |
| ComponentResourceKeyAnalyzer.Wpf0141Condition | WpfAnalyzers/Analyzers/ComponentResourceKeyAnalyzer.cs:60-72 | WPF0141 is reported exactly when the resourceId argument is a constant other than the member's name, proposing `nameof(Member)` |
| ComponentResourceKeyAnalyzer.BothChecksCanFire | WpfAnalyzers/Analyzers/ComponentResourceKeyAnalyzer.cs:48-72 | the two checks are independent: one creation can get WPF0140 then WPF0141 |
| UseContainingTypeFix.FixFor | WpfAnalyzers/CodeFixes/UseContainingTypeFix.cs:35-47 | a diagnostic gets a fix exactly when a typeof and an enclosing type are found; the fix rewrites that typeof to the minimal display name of the type |
| UseContainingTypeFix.RegisterCodeFixes | WpfAnalyzers/CodeFixes/UseContainingTypeFix.cs:25-50 | the loop over the diagnostics registers exactly `Registered(requests)` |
| UseContainingTypeFix.OneFixPerDiagnostic | WpfAnalyzers/CodeFixes/UseContainingTypeFix.cs:33-49 | at most one fix per diagnostic, in diagnostic order, and one exactly for the fixable diagnostics |
| UseContainingTypeFix.DocumentEditor.ReplaceTypeOfType | WpfAnalyzers/CodeFixes/UseContainingTypeFix.cs:43-46 | the typeof's type is replaced and no other node changes |
| UseContainingTypeFix.Apply | WpfAnalyzers/CodeFixes/UseContainingTypeFix.cs:41-47 | applying a fix rewrites its own typeof and leaves every other node |
| UseContainingTypeFix.UseContainingType | WpfAnalyzers/CodeFixes/UseContainingTypeFix.cs:41-47 | only the typeInTargetAssembly argument of a ComponentResourceKey changes; labels are kept |
| UseContainingTypeFix.NoWpf0140AfterFix | WpfAnalyzers/CodeFixes/UseContainingTypeFix.cs:39-47 | after the fix WPF0140 does not recur |
| UseContainingTypeFix.ResourceIdUnchangedByFix | WpfAnalyzers/CodeFixes/UseContainingTypeFix.cs:41-47 | the fix leaves WPF0141 as it was, unless resourceId and typeInTargetAssembly are the same argument |
| ValueConversion.TypeOfMismatch | WpfAnalyzers/Analyzers/ValueConverterAnalyzer.cs:77-83 | WPF0072 is reported at the argument, with the expected type, exactly when it is a typeof whose type resolves to another type |
| ValueConverterAnalyzer.WrongDefaults | WpfAnalyzers/Analyzers/ValueConverterAnalyzer.cs:43-51 | one WPF0074 at each default member whose assigned value has another type than the converter, and only those |
| ValueConverterAnalyzer.ReportWrongDefaults | WpfAnalyzers/Analyzers/ValueConverterAnalyzer.cs:43-51 | the loop over the default members reports exactly `WrongDefaults` |
| ValueConverterAnalyzer.Handle | WpfAnalyzers/Analyzers/ValueConverterAnalyzer.cs:29-99 | the node action reports exactly the default-instance rules then, for an IValueConverter, the ValueConversion rules |
| ValueConverterAnalyzer.IneligibleIsSilent | WpfAnalyzers/Analyzers/ValueConverterAnalyzer.cs:31-37 | nothing for an abstract, private or protected class, or one that is not a converter |
| ValueConverterAnalyzer.Wpf0074PerWrongDefault | WpfAnalyzers/Analyzers/ValueConverterAnalyzer.cs:39-52 | for a converter that is not a MarkupExtension, the WPF0074 reports are exactly one per default member of the wrong type |
| ValueConverterAnalyzer.Wpf0070Condition | WpfAnalyzers/Analyzers/ValueConverterAnalyzer.cs:53-58 | WPF0070 exactly for a non-MarkupExtension converter without default members, virtual/abstract/protected members, parameterised constructors or mutable members; never together with WPF0074 |
| ValueConverterAnalyzer.Wpf0072Checks | WpfAnalyzers/Analyzers/ValueConverterAnalyzer.cs:65-84 | the source and target checks are independent, each reported at its argument with the expected type exactly on a typeof mismatch, the source check only for a known non-object type |
| ValueConverterAnalyzer.ObjectSourceIsNotChecked | WpfAnalyzers/Analyzers/ValueConverterAnalyzer.cs:67-68 | an unknown or object source type is never reported |
| ValueConverterAnalyzer.MissingAttribute | WpfAnalyzers/Analyzers/ValueConverterAnalyzer.cs:61-96 | an IValueConverter without the attribute gets WPF0071 when the conversion types are known and WPF0073 otherwise; a multi-value-only converter neither |
| LegacyValueConverterAnalyzer.DefaultFieldRule | WpfAnalyzers.Analyzers/NodeAnalyzers/ValueConverterAnalyzer.cs:42-48 | WPF0070 is reported only at the class name |
| LegacyValueConverterAnalyzer.HandleDeclaration | WpfAnalyzers.Analyzers/NodeAnalyzers/ValueConverterAnalyzer.cs:28-86 | the node action reports exactly `Diagnose` |
| LegacyValueConverterAnalyzer.IneligibleIsSilent | WpfAnalyzers.Analyzers/NodeAnalyzers/ValueConverterAnalyzer.cs:30-40 | nothing for an excluded, abstract, private or protected class, or one that is not a converter |
| LegacyValueConverterAnalyzer.Wpf0070Condition | WpfAnalyzers.Analyzers/NodeAnalyzers/ValueConverterAnalyzer.cs:42-48 | WPF0070 exactly for a non-MarkupExtension converter without mutable, virtual/abstract/protected or default members; constructors play no part |
| LegacyValueConverterAnalyzer.Wpf0072Checks | WpfAnalyzers.Analyzers/NodeAnalyzers/ValueConverterAnalyzer.cs:54-71 | each argument is checked against its inferred type, without an exemption for object or an unknown type |
| LegacyValueConverterAnalyzer.MissingAttribute | WpfAnalyzers.Analyzers/NodeAnalyzers/ValueConverterAnalyzer.cs:50-83 | without the attribute, WPF0071 when the conversion types are known, WPF0073 otherwise, only for an IValueConverter |
| LegacyValueConverterAnalyzer.ObjectSourceIsChecked | WpfAnalyzers.Analyzers/NodeAnalyzers/ValueConverterAnalyzer.cs:56-62 | a typeof(string) source argument against an object source type is reported here, unlike in the current analyzer |
| LegacyValueConversionTypes.ArgumentType | WpfAnalyzers.Analyzers/WPF0072ValueConversionMustUseCorrectTypes.cs:51 | the type of a typeof argument is the type it names |
| LegacyValueConversionTypes.Mismatch | WpfAnalyzers.Analyzers/WPF0072ValueConversionMustUseCorrectTypes.cs:50-60 | WPF0072 at the argument, without message arguments, exactly when the argument is found and its type is not the inferred one |
| LegacyValueConversionTypes.HandleDeclaration | WpfAnalyzers.Analyzers/WPF0072ValueConversionMustUseCorrectTypes.cs:35-62 | the node action reports exactly `Diagnose` |
| LegacyValueConversionTypes.IneligibleIsSilent | WpfAnalyzers.Analyzers/WPF0072ValueConversionMustUseCorrectTypes.cs:42-48 | nothing unless every guard holds and the conversion types resolve |
| LegacyValueConversionTypes.IndependentChecks | WpfAnalyzers.Analyzers/WPF0072ValueConversionMustUseCorrectTypes.cs:50-60 | the source and target checks are independent, each exactly on a mismatch of its own argument, at most two reports |
| LegacyValueConversionTypes.WrongSourceTypeOnly | WpfAnalyzers.Analyzers/WPF0072ValueConversionMustUseCorrectTypes.cs:50-54 | `[ValueConversion(typeof(string), typeof(int))]` on an ICollection-to-int converter is reported at the source argument only |
| ChangeValueConversionAttributeArgumentFix.FixFor | WpfAnalyzers.CodeFixes/ChangeValueConversionAttributeArgumentFix.cs:33-49 | a diagnostic gets a fix, titled "Add default field.", exactly on a non-empty token whose nearest enclosing argument is an `ArgumentSyntax` (an invocation, object-creation or element-access argument), in a class whose conversion types resolve |
| ChangeValueConversionAttributeArgumentFix.AttributeArgumentGetsNoFix | WpfAnalyzers.CodeFixes/ChangeValueConversionAttributeArgumentFix.cs:39-42 | as written, a diagnostic on an attribute argument gets no fix in the batch |
| ChangeValueConversionAttributeArgumentFix.IntendedFixFor | WpfAnalyzers.CodeFixes/ChangeValueConversionAttributeArgumentFix.cs:39-48 | under the intended guard, a diagnostic gets the same fix exactly on a non-empty token inside an attribute argument of a class whose conversion types resolve |
| ChangeValueConversionAttributeArgumentFix.IntendedFixClearsWpf0072 | WpfAnalyzers.CodeFixes/ChangeValueConversionAttributeArgumentFix.cs:39-64 | under the intended guard, a WPF0072 on an attribute argument gets one fix, and its edit leaves ValueConverterAnalyzer with no WPF0072 |
| ChangeValueConversionAttributeArgumentFix.RegisterCodeFixes | WpfAnalyzers.CodeFixes/ChangeValueConversionAttributeArgumentFix.cs:24-51 | the loop registers exactly `Registered(requests)` |
| ChangeValueConversionAttributeArgumentFix.OneFixPerDiagnostic | WpfAnalyzers.CodeFixes/ChangeValueConversionAttributeArgumentFix.cs:31-50 | at most one fix per diagnostic, in order, and one exactly for the fixable diagnostics |
| ChangeValueConversionAttributeArgumentFix.Converted | WpfAnalyzers.CodeFixes/ChangeValueConversionAttributeArgumentFix.cs:53-64 | the edit makes the first two arguments unlabelled typeofs of the source and target type and keeps the rest |
| ChangeValueConversionAttributeArgumentFix.AttributeEditor.ReplaceNode | WpfAnalyzers.CodeFixes/ChangeValueConversionAttributeArgumentFix.cs:55-63 | one argument is replaced |
| ChangeValueConversionAttributeArgumentFix.AddAttribute | WpfAnalyzers.CodeFixes/ChangeValueConversionAttributeArgumentFix.cs:53-64 | the two replacements produce `Converted` |
| ChangeValueConversionAttributeArgumentFix.ConvertedArgumentsAreFound | WpfAnalyzers.CodeFixes/ChangeValueConversionAttributeArgumentFix.cs:53-64 | after the edit the sourceType and targetType lookups find the new typeofs |
| ChangeValueConversionAttributeArgumentFix.ConvertedIsIdempotent | WpfAnalyzers.CodeFixes/ChangeValueConversionAttributeArgumentFix.cs:53-64 | applying the edit twice is applying it once |
| ChangeValueConversionAttributeArgumentFix.NoLegacyWpf0072AfterFix | WpfAnalyzers.CodeFixes/ChangeValueConversionAttributeArgumentFix.cs:53-64 | after the edit, the first-generation WPF0072 analyzer reports nothing |
| ChangeValueConversionAttributeArgumentFix.NoWpf0072AfterFix | WpfAnalyzers.CodeFixes/ChangeValueConversionAttributeArgumentFix.cs:53-64 | after the edit, ValueConverterAnalyzer reports no WPF0072 |
| ChangeValueConversionAttributeArgumentFix.NoLegacyConverterWpf0072AfterFix | WpfAnalyzers.CodeFixes/ChangeValueConversionAttributeArgumentFix.cs:53-64 | after the edit, the first-generation ValueConverterAnalyzer reports no WPF0072 |
| LegacyConstructorArgument.Diagnose | WpfAnalyzers.Analyzers/WPF0082ConstructorArgument.cs:35-48 | at most one WPF0082 per attribute |
| LegacyConstructorArgument.HandleDeclaration | WpfAnalyzers.Analyzers/WPF0082ConstructorArgument.cs:35-48 | the node action reports exactly `Diagnose` |
| LegacyConstructorArgument.Wpf0082Condition | WpfAnalyzers.Analyzers/WPF0082ConstructorArgument.cs:42-46 | WPF0082 exactly when the match is definitely false, at the argument, with the expected parameter name as message argument |
| LegacyConstructorArgument.UnknownMatchIsSilent | WpfAnalyzers.Analyzers/WPF0082ConstructorArgument.cs:44 | an unknown (null) match result never reports |
| LegacyConstructorArgument.MatchIsSilent | WpfAnalyzers.Analyzers/WPF0082ConstructorArgument.cs:44 | a matching name reports nothing |
| LegacyConstructorArgument.OtherAttributesAreSilent | WpfAnalyzers.Analyzers/WPF0082ConstructorArgument.cs:42-43 | other attributes report nothing |
| InvocationSyntax.Name | WpfAnalyzers.Analyzers/Helpers/SyntaxtTreeHelpers/InvocationExpressionSyntaxExt.cs:8-34 | no invocation has no name; a name is the text of an identifier callee or of a member access's identifier name |
| InvocationSyntax.NameIsTheCalledIdentifier | WpfAnalyzers.Analyzers/Helpers/SyntaxtTreeHelpers/InvocationExpressionSyntaxExt.cs:20-30 | exactly those two shapes have a name; a generic name or any other callee has none |
| InvocationSyntax.NameIgnoresArguments | WpfAnalyzers.Analyzers/Helpers/SyntaxtTreeHelpers/InvocationExpressionSyntaxExt.cs:20-30 | the name depends on the callee alone |
| InvocationSyntax.NameOfShapes | WpfAnalyzers.Analyzers/Helpers/SyntaxtTreeHelpers/InvocationExpressionSyntaxExt.cs:36-39 | `nameof(x)` and `a.nameof(x)` are nameof; `a.nameof<T>()` and no invocation are not |
| InvocationSyntax.CallsAreExclusive | WpfAnalyzers.Analyzers/Helpers/SyntaxtTreeHelpers/InvocationExpressionSyntaxExt.cs:41-54 | no invocation is two of GetValue, SetValue and SetCurrentValue; GetValue has one argument, the others two |
| InvocationSyntax.WrongArityIsNotRecognised | WpfAnalyzers.Analyzers/Helpers/SyntaxtTreeHelpers/InvocationExpressionSyntaxExt.cs:41-54 | a call with another argument count, or without an argument list, is none of them |
| TypeSymbolExt.RecursiveBaseTypes | WpfAnalyzers/Helpers/SymbolHelpers/TypeSymbolExt.cs:10-25 | the loop yields exactly `RecursiveBases(chain)` |
| TypeSymbolExt.Length | WpfAnalyzers/Helpers/SymbolHelpers/TypeSymbolExt.cs:12-24 | the number yielded is the number of interfaces along the chain plus the chain's length minus one |
| TypeSymbolExt.Layout | WpfAnalyzers/Helpers/SymbolHelpers/TypeSymbolExt.cs:14-23 | each type's interfaces are yielded together, and each base type immediately before its own interfaces |
| TypeSymbolExt.BaseFollowsInterfaces | WpfAnalyzers/Helpers/SymbolHelpers/TypeSymbolExt.cs:14-22 | a type's base type is yielded right after that type's last interface |
| TypeSymbolExt.BasesInChainOrder | WpfAnalyzers/Helpers/SymbolHelpers/TypeSymbolExt.cs:19-23 | a nearer base type is yielded, at its own position, before a farther one |
| TypeSymbolExt.Members | WpfAnalyzers/Helpers/SymbolHelpers/TypeSymbolExt.cs:12-24 | what is yielded is exactly the base types and the interfaces along the chain |
| TypeSymbolExt.StartTypeIsNotYielded | WpfAnalyzers/Helpers/SymbolHelpers/TypeSymbolExt.cs:12-24 | the starting type is not yielded for itself |

## Left out

- Semantic-model queries, and the Gu.Roslyn.Extensions queries that need the semantic model, are inputs, not algorithms. This covers register-call lookup, registered names and types, constant values, `IsAssignableTo`, `ValueConverter.*`, `Mutable.*`, `Virtual.*`, `ConstructorArgument.IsMatch`, attached-accessor detection and symbol search by name.
- `ToMinimalDisplayString` is an input function. The display strings themselves are not modelled.
- Analyzer registration, `SupportedDiagnostics`, concurrency, cancellation and generated-code settings are host plumbing.
- Descriptor titles, categories, help links and the descriptor-only files are not modelled. The only descriptor text kept is the message format where it matters.
- Name comparisons are ordinal. The model does no culture handling.
- Syntax locations are tags (`Host.Location`), not source spans.
- Type identity is equality of full names. Richer identity, such as generic type arguments, is not modelled.
- Host.FindArgument: stands in for Gu's `Attribute.TryFindArgument`, the first-generation `Attribute.TryGetArgument` and `AttributeExt.TryGetArgument`, and `ObjectCreationExpressionSyntax.TryFindArgument(parameter)`. None of their code is part of this model. They are modelled by their evident meaning: the first argument with a `name:` or `Name =` label of that name, otherwise the argument at the given position, otherwise none. `Host.FoundExpression` is that argument's expression.
- Text.IsParts: stands in for Gu's `string.IsParts(start, end)`, whose code is not part of this model. It is modelled by its evident meaning: the string is exactly `start` followed by `end`, compared ordinally.
- Host.FirstWithout: stands in for `statements.TryFirst(x => !x.Contains(call))`, where the `TryFirst` helper and `Contains` on syntax nodes are not part of this model. It is modelled as the first statement whose invocations do not include the call.
- ClrPropertyAnalyzer: `TryGetMethodName` and `TryGetArgumentAtIndex` on a missing call are taken as failing.
- AttributeAnalyzer: the `XmlnsDefinition` clrNamespace argument is looked up under the parameter name "clrNamespace".
- AttributeAnalyzer: a handler lookup on a containing symbol that is not a type finds no method.
- UseContainingTypeFix.NoWpf0140AfterFix: assumes the minimal display name written by the fix resolves back to the containing type.
- ChangeValueConversionAttributeArgumentFix.AddAttribute: requires two arguments and two known types. The source's edit throws otherwise, and those paths are not modelled.
- ChangeValueConversionAttributeArgumentFix.FixFor: assumes that `FirstAncestor` on a missing argument gives no node rather than throwing. If it throws, the rest of the batch gets no fix either.
- ChangeValueConversionAttributeArgumentFix.FixFor: the nearest argument node decides. An attribute on a declaration nested inside an invocation argument is not modelled.
- ChangeValueConversionAttributeArgumentFix.RegisterCodeFixes: keeps the guard as written, so a diagnostic on an attribute argument gets no fix. The intended guard is proved separately (see "## Findings").
- LegacyValueConversionTypes.ArgumentType: `GetTypeInfoSafe(argument).Type` is read as T for `typeof(T)`, `System.String` for a string constant, and unknown otherwise. That helper is not part of this model. The CodeFix tests for WPF0072 (WpfAnalyzers.Test/WPF0072ValueConversionMustUseCorrectTypesTests/CodeFix.cs:19 and :168) each mark only the wrong `typeof` argument, which this reading gives.
- ChangeValueConversionAttributeArgumentFix.NoWpf0072AfterFix: requires that no argument after the first two is labelled sourceType or targetType, as valid C# ensures.
- ChangeValueConversionAttributeArgumentFix.TypeOfArgumentSyntax: writes the type's full name. The simplification applied by the code generator is not modelled.
- InvocationSyntax.Name: the switch on the node kind is not modelled. An invocation expression always has kind InvocationExpression, so its default branch cannot be reached.
- TypeSymbolExt.RecursiveBaseTypes: the lazy `yield` enumeration is modelled as a loop that builds the whole sequence. The base-type chain is an input sequence, finite by construction.
- Benchmarks and test harnesses are not modelled. The WPF0010 and WPF0016 tests belong to analyzers outside this model.

## Findings

| source | as written | input that shows it | evidently intended | confidence | as-written member | corrected member |
|---|---|---|---|---|---|---|
| WpfAnalyzers.CodeFixes/ChangeValueConversionAttributeArgumentFix.cs:39-42 | the guard looks for an `ArgumentSyntax` around the diagnostic; an attribute argument is an `AttributeArgumentSyntax`, so none is found | a WPF0072 at `typeof(string)` in `[ValueConversion(typeof(string), typeof(int))]`, the location both analyzers use (WPF0072ValueConversionMustUseCorrectTypes.cs:53, WpfAnalyzers/Analyzers/ValueConverterAnalyzer.cs:74) | find the enclosing attribute argument and register the fix for it | medium, not executed; the WPF0072 CodeFix tests name another fix class, `ValueConversionAttributeArgumentFix` | ChangeValueConversionAttributeArgumentFix.AttributeArgumentGetsNoFix | ChangeValueConversionAttributeArgumentFix.IntendedFixClearsWpf0072 |
