/**
 * Concrete reflection worlds that show the resolution on small cases: an
 * overloaded method on the companion type, a companion whose only
 * counterpart is static, and a chain of metadata types.
 */
module ResolutionScenarios {
  import opened Reflection
  import opened ValidationReflectionHelper

  const Required := Attr("RequiredAttribute", [])
  const Range := Attr("RangeValidatorAttribute", ["0", "10"])

  function Overload(parameterTypes: seq<TypeId>, isStatic: bool, attrs: seq<Attr>): Member {
    Member("Check", Method, isStatic, parameterTypes, attrs)
  }

  /** The companion: instance overloads on int and on string. */
  function OverloadCompanion(): Type {
    Type("CustomerMetadata", None,
      [Overload(["System.Int32"], false, [Range]),
       Overload(["System.String"], false, [Required])],
      [])
  }

  /** A companion whose only `Check(string)` is static. */
  function StaticCompanion(): Type {
    Type("OrderMetadata", None, [Overload(["System.String"], true, [Required])], [])
  }

  function Order(): Type {
    Type("Order", Some(StaticCompanion()), [Overload(["System.String"], false, [])], [])
  }

  function Customer(): Type {
    Type("Customer", Some(OverloadCompanion()), [Overload(["System.String"], false, [])], [])
  }

  /**
   * `Check(string)` resolves to the companion's overload on string, passing
   * over the overload on int listed before it, and the attributes read are
   * that overload's.
   */
  lemma OverloadedMethodResolvesToMatchingOverload()
    ensures GetMatchingElement(MemberElem(Customer(), Overload(["System.String"], false, [])))
            == MemberElem(OverloadCompanion(), Overload(["System.String"], false, [Required]))
    ensures GetCustomAttributes(MemberElem(Customer(), Overload(["System.String"], false, [])),
                                "RequiredAttribute", (a, b) => a == b) == [Required]
  {
  }

  /** `Check(bool)` has no overload on the companion and resolves to itself. */
  lemma UnmatchedOverloadFallsBack()
    ensures GetMatchingElement(MemberElem(Customer(), Overload(["System.Boolean"], false, [])))
            == MemberElem(Customer(), Overload(["System.Boolean"], false, []))
  {
  }

  /**
   * A static `Check(string)` on the companion is never selected: the
   * instance `Check(string)` of `Order` resolves to itself and keeps its own
   * (empty) attributes, not the static member's.
   */
  lemma StaticCounterpartIsNotSelected()
    ensures GetMatchingElement(MemberElem(Order(), Overload(["System.String"], false, [])))
            == MemberElem(Order(), Overload(["System.String"], false, []))
    ensures GetCustomAttributes(MemberElem(Order(), Overload(["System.String"], false, [])),
                                "RequiredAttribute", (a, b) => a == b) == []
  {
  }

  /**
   * With A redirected to B and B to C, A resolves to B, and resolving the
   * result again gives C: the resolution is one step and is not idempotent.
   */
  lemma ChainedMetadataTypesAreNotFollowed()
    ensures var c := Type("C", None, [], []);
            var b := Type("B", Some(c), [], []);
            var a := Type("A", Some(b), [], []);
            GetMatchingElement(TypeElem(a)) == TypeElem(b) &&
            GetMatchingElement(GetMatchingElement(TypeElem(a))) == TypeElem(c)
  {
  }
}
