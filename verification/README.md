# Metadata redirection in the validation block

This project models how the Validation Application Block decides where the validation
attributes of a type or a member are read from. A type can name a companion
"metadata type" through `ModelMetadataTypeAttribute`. When it does, lookups move to that
companion:

- a type resolves to the companion type itself;
- a property, field or event resolves to the companion's first non-static member with the
  same name and member kind;
- a method or constructor resolves to the first such member whose parameter types are the
  same, in order.

In every other case the lookup falls back to the original element. `GetCustomAttributes`
then reads the attributes of the resolved element.

The reflection world is explicit data, in module `Reflection` (`reflection.dfy`):

- a `Type` has an identity, an optional metadata type (the attribute declared on the type
  itself, not inherited), its members in lookup order, and its attributes;
- a `Member` has a name, a kind, a static flag, its parameter types and its attributes;
- an `Element` (a `MemberInfo`) is a type, or a member with its declaring type.

`GetMember` is the lookup `Type.GetMember(name, kind, Instance | Public | NonPublic)`. It keeps
the members with that name and kind that are not static, in order. `MatchMethodBase` is exact
equality of the parameter-type sequences: no coercion and no assignability.

The resolution and the attribute lookup are in module `ValidationReflectionHelper`
(`validation_reflection_helper.dfy`). Module `ResolutionScenarios`
(`resolution_scenarios.dfy`) works through small concrete worlds.

When several non-method members of the companion match, the first in lookup order is taken.

## Model

| member | source | states |
|---|---|---|
| `Reflection.GetMember` | source/Src/Validation/ValidationReflectionHelper.Core.cs:57-61 | a member is in the lookup result exactly when it is in the type's members, has the given name and kind, and is not static |
| `Reflection.FirstMatchingMethod` | source/Src/Validation/ValidationReflectionHelper.Core.cs:72 | a found overload is one of the candidates and has exactly the given parameter types; nothing is found exactly when no candidate has them |
| `Reflection.GetMemberFirst` | source/Src/Validation/ValidationReflectionHelper.Core.cs:63-68 | the head of the lookup result is the first same-named, same-kind instance member in declaration order |
| `Reflection.FirstOverloadFound` | source/Src/Validation/ValidationReflectionHelper.Core.cs:57-72 | filtering by name and kind and then taking the first parameter match selects the first matching instance overload in declaration order |
| `ValidationReflectionHelper.GetMatchingElement` | source/Src/Validation/ValidationReflectionHelper.Core.cs:33-76 | without a metadata type on the source type the element is returned unchanged; otherwise the result is the element itself, the companion type for a type, or a non-static companion member of the same name and kind (same parameter types for methods and constructors) |
| `ValidationReflectionHelper.AttributesOfType` | source/Src/Validation/ValidationReflectionHelper.Core.cs:30 | an attribute is returned exactly when it is declared on the element and its class is the requested attribute type or derives from it, and as many times as it is declared |
| `ValidationReflectionHelper.GetCustomAttributes` | source/Src/Validation/ValidationReflectionHelper.Core.cs:26-31 | an attribute is returned exactly when it is declared on the resolved element (not the original one) and is of the requested type, and as many times as the resolved element declares it |
| `ValidationReflectionHelper.TypeResolvesToCompanion` | source/Src/Validation/ValidationReflectionHelper.Core.cs:50-55 | a type with a metadata attribute resolves to exactly the attribute's metadata type |
| `ValidationReflectionHelper.SourceType` | source/Src/Validation/ValidationReflectionHelper.Core.cs:35-40 | the type consulted for the metadata attribute is the element itself when it is a type, otherwise its declaring type |
| `Reflection.MatchMethodBase` | source/Src/Validation/ValidationReflectionHelper.Core.cs:72 | a candidate matches exactly when it has as many parameters as the original and the same type at every position |
| `ValidationReflectionHelper.RedirectionIsSingleStep` | source/Src/Validation/ValidationReflectionHelper.Core.cs:42-54 | the companion's own metadata type is never consulted: changing or removing it leaves a type resolving to the companion, and a member falling back or redirected to the same companion member |
| `ValidationReflectionHelper.MemberResolvesToFirstCandidate` | source/Src/Validation/ValidationReflectionHelper.Core.cs:57-68 | a non-method member resolves to the companion's first same-named, same-kind instance member |
| `ValidationReflectionHelper.MemberWithoutCandidateFallsBack` | source/Src/Validation/ValidationReflectionHelper.Core.cs:63-75 | with no same-named, same-kind instance member on the companion, the member resolves to itself |
| `ValidationReflectionHelper.MethodResolvesToFirstOverload` | source/Src/Validation/ValidationReflectionHelper.Core.cs:65-72 | a method or constructor resolves to the companion's first instance overload with the same name, kind and parameter types |
| `ValidationReflectionHelper.MethodWithoutOverloadFallsBack` | source/Src/Validation/ValidationReflectionHelper.Core.cs:71-72 | with no companion overload of the same parameter types, the method or constructor resolves to itself |
| `ValidationReflectionHelper.MemberRedirectedIffCandidate` | source/Src/Validation/ValidationReflectionHelper.Core.cs:57-75 | a member of a type that names a metadata type is redirected if and only if the companion has a matching instance member (with matching parameter types for methods and constructors) |
| `ValidationReflectionHelper.UnredirectedAttributesAreOwn` | source/Src/Validation/ValidationReflectionHelper.Core.cs:26-48 | without a metadata type, the attributes returned are the element's own of the requested type |
| `ValidationReflectionHelper.TypeAttributesComeFromCompanion` | source/Src/Validation/ValidationReflectionHelper.Core.cs:26-55 | a redirected type's attributes are the companion type's, in order |
| `ValidationReflectionHelper.RedirectedMemberAttributesComeFromCompanion` | source/Src/Validation/ValidationReflectionHelper.Core.cs:26-31 | once a member is redirected, an attribute found only on the original member is not returned |
| `ResolutionScenarios.OverloadedMethodResolvesToMatchingOverload` | source/Src/Validation/ValidationReflectionHelper.Core.cs:57-72 | of two instance overloads, the one with the same parameter types is chosen, not the one listed first, and its attributes are returned |
| `ResolutionScenarios.StaticCounterpartIsNotSelected` | source/Src/Validation/ValidationReflectionHelper.Core.cs:57-63 | when the companion's only same-named method is static, the method resolves to itself and the static member's attributes are not returned |
| `ResolutionScenarios.UnmatchedOverloadFallsBack` | source/Src/Validation/ValidationReflectionHelper.Core.cs:71-72 | a method with no overload of its parameter types on the companion resolves to itself |
| `ResolutionScenarios.ChainedMetadataTypesAreNotFollowed` | source/Src/Validation/ValidationReflectionHelper.Core.cs:50-54 | with A redirected to B and B to C, A resolves to B, and resolving again gives C: one step per call, so the resolution is not idempotent |

## Left out

- The .NET reflection calls (`Attribute.GetCustomAttribute`, `Type.GetMember`, `GetParameters`, `Attribute.GetCustomAttributes`) are foreign library code. They are replaced by the explicit data in `Reflection`.
- `GetMember` models only the members listed on the type, in list order. Members inherited from base types, and the order in which .NET actually returns members, are not modelled.
- `TypeAttributesComeFromCompanion`: "in order" is the order of the model's attribute lists; .NET does not promise any order for the attributes it returns.
- `MatchMethodBase` is modelled as exact equality of the parameter-type sequences.
- `GetCustomAttributes`: the `inherit` argument (searching ancestors of the element) is not modelled, because the model has no base types. Whether an attribute class is the requested type or derives from it is a parameter, `isA`.
- The `ModelMetadataTypeAttribute` is held in `Type.metadataType`, not in the attribute list. So `GetCustomAttributes` never returns it.
- No cycle of metadata types can be expressed (a type naming itself, or A naming B while B names A): `Type` is an inductive datatype, so a companion is always a different type from every type that leads to it.
- A member with no declaring type (a global module member, where .NET would throw on the null type) cannot be expressed: every `MemberElem` carries its declaring type.
- Nested types are elements of type kind and resolve as types. The model has no member kind for them.
- Caching of lookups and thread safety are not modelled. The code has neither.
- `RelativeDateTimeValidatorData.cs`, `EnumConversionValidatorAttribute.cs` and `ResourcesFixture.cs` are not part of this model. They are configuration binding, attribute sugar forwarding to validators, and a resource coverage test. The range, relative date-time and enum-conversion validators they forward to are not modelled.
