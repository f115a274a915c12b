/**
 * The metadata redirection of the validation block: which element's
 * validation attributes apply to a type or a member, when the declaring type
 * names a companion metadata type through ModelMetadataType, and the
 * attribute lookup that goes through it.
 */
module ValidationReflectionHelper {
  import opened Reflection

  /** The type whose ModelMetadataType attribute is consulted: the element itself, or its declaring type. */
  function SourceType(element: Element): (r: Type)
    ensures element.TypeElem? <==> element == TypeElem(r)
    ensures element.MemberElem? ==> element.declaringType == r
  {
    match element
    case TypeElem(t) => t
    case MemberElem(declaringType, _) => declaringType
  }

  /**
   * The redirections that are allowed: from a type to its companion type, and
   * from a member to a non-static member of the companion type with the same
   * name and kind (and, for methods and constructors, the same parameter types).
   */
  ghost predicate IsRedirection(element: Element, r: Element) {
    SourceType(element).metadataType.Some? &&
    var companion := SourceType(element).metadataType.value;
    match element
    case TypeElem(_) => r == TypeElem(companion)
    case MemberElem(_, m) =>
      r.MemberElem? && r.declaringType == companion && r.member in companion.members &&
      IsInstanceMatch(r.member, m.name, m.kind) &&
      (IsMethodBase(m.kind) ==> MatchMethodBase(r.member, m.parameterTypes))
  }

  /**
   * The element whose attributes apply to `element`: without a metadata type
   * the element itself; otherwise the companion type, or the companion's
   * matching member, falling back to the element when there is none.
   */
  function GetMatchingElement(element: Element): (r: Element)
    ensures SourceType(element).metadataType.None? ==> r == element
    ensures r == element || IsRedirection(element, r)
  {
    match SourceType(element).metadataType
    case None => element
    case Some(metadataType) =>
      match element
      case TypeElem(_) => TypeElem(metadataType)
      case MemberElem(_, m) =>
        var matchingMembers := GetMember(metadataType.members, m.name, m.kind);
        if |matchingMembers| > 0 then
          if !IsMethodBase(m.kind) then
            MemberElem(metadataType, matchingMembers[0])
          else
            match FirstMatchingMethod(matchingMembers, m.parameterTypes)
            case Some(mb) => MemberElem(metadataType, mb)
            case None => element
        else
          element
  }

  /** The attributes declared directly on an element. */
  function DeclaredAttributes(element: Element): seq<Attr> {
    match element
    case TypeElem(t) => t.attributes
    case MemberElem(_, m) => m.attributes
  }

  /**
   * The attributes in `attrs` whose class is `attributeType` or derives from it,
   * in order; `isA(a, b)` says whether attribute class `a` is `b` or a subclass of it.
   */
  function AttributesOfType(attrs: seq<Attr>, attributeType: TypeId, isA: (TypeId, TypeId) -> bool): (r: seq<Attr>)
    ensures forall a :: a in r <==> a in attrs && isA(a.attrType, attributeType)
    ensures forall a :: multiset(r)[a] == if isA(a.attrType, attributeType) then multiset(attrs)[a] else 0
    ensures |r| <= |attrs|
  {
    if attrs == [] then []
    else
      var rest := AttributesOfType(attrs[1..], attributeType, isA);
      assert attrs == [attrs[0]] + attrs[1..];
      assert multiset(attrs) == multiset{attrs[0]} + multiset(attrs[1..]);
      if isA(attrs[0].attrType, attributeType) then [attrs[0]] + rest else rest
  }

  /** The custom attributes of type `attributeType` that apply to `element`, read from the matching element. */
  function GetCustomAttributes(element: Element, attributeType: TypeId, isA: (TypeId, TypeId) -> bool): (r: seq<Attr>)
    ensures forall a :: a in r <==>
      a in DeclaredAttributes(GetMatchingElement(element)) && isA(a.attrType, attributeType)
    ensures forall a :: multiset(r)[a] ==
                        if isA(a.attrType, attributeType)
                        then multiset(DeclaredAttributes(GetMatchingElement(element)))[a]
                        else 0
  {
    AttributesOfType(DeclaredAttributes(GetMatchingElement(element)), attributeType, isA)
  }

  // ---------------------------------------------------------------------------
  // One lemma per branch of the resolution
  // ---------------------------------------------------------------------------

  /** A type carrying a metadata type resolves to exactly that metadata type. */
  lemma TypeResolvesToCompanion(t: Type)
    requires t.metadataType.Some?
    ensures GetMatchingElement(TypeElem(t)) == TypeElem(t.metadataType.value)
  {
  }

  /**
   * The element with the metadata type of its source type's companion
   * replaced by `other`: the same lookup, in a world where the companion
   * names a different metadata type of its own, or none.
   */
  function WithCompanionMetadata(element: Element, other: Option<Type>): Element
    requires SourceType(element).metadataType.Some?
  {
    var source := SourceType(element);
    var companion := source.metadataType.value.(metadataType := other);
    match element
    case TypeElem(_) => TypeElem(source.(metadataType := Some(companion)))
    case MemberElem(_, m) => MemberElem(source.(metadataType := Some(companion)), m)
  }

  /**
   * Redirection takes one step: the companion's own metadata type is never
   * consulted. Whatever the companion names as its metadata type, a type
   * resolves to the companion, and a member falls back, or is redirected to
   * the same companion member, in both worlds alike.
   */
  lemma RedirectionIsSingleStep(element: Element, other: Option<Type>)
    requires SourceType(element).metadataType.Some?
    ensures var element' := WithCompanionMetadata(element, other);
            var companion' := SourceType(element').metadataType.value;
            var r := GetMatchingElement(element);
            var r' := GetMatchingElement(element');
            (element.TypeElem? ==> r' == TypeElem(companion')) &&
            (element.MemberElem? ==>
              (r == element <==> r' == element') &&
              (r != element ==> r'.declaringType == companion' && r'.member == r.member))
  {
  }

  /** A property, field or event resolves to the first same-named, same-kind instance member of the companion. */
  lemma MemberResolvesToFirstCandidate(t: Type, m: Member, i: int)
    requires t.metadataType.Some? && !IsMethodBase(m.kind)
    requires FirstInstanceMatchAt(t.metadataType.value.members, m.name, m.kind, i)
    ensures GetMatchingElement(MemberElem(t, m)) == MemberElem(t.metadataType.value, t.metadataType.value.members[i])
  {
    GetMemberFirst(t.metadataType.value.members, m.name, m.kind, i);
  }

  /** Without a same-named, same-kind instance member on the companion, a member resolves to itself. */
  lemma MemberWithoutCandidateFallsBack(t: Type, m: Member)
    requires t.metadataType.Some?
    requires forall x :: x in t.metadataType.value.members ==> !IsInstanceMatch(x, m.name, m.kind)
    ensures GetMatchingElement(MemberElem(t, m)) == MemberElem(t, m)
  {
  }

  /** A method or constructor resolves to the first companion overload with the same parameter types. */
  lemma MethodResolvesToFirstOverload(t: Type, m: Member, i: int)
    requires t.metadataType.Some? && IsMethodBase(m.kind)
    requires FirstOverloadAt(t.metadataType.value.members, m.name, m.kind, m.parameterTypes, i)
    ensures GetMatchingElement(MemberElem(t, m)) == MemberElem(t.metadataType.value, t.metadataType.value.members[i])
  {
    FirstOverloadFound(t.metadataType.value.members, m.name, m.kind, m.parameterTypes, i);
  }

  /** A method or constructor without a companion overload of the same parameter types resolves to itself. */
  lemma MethodWithoutOverloadFallsBack(t: Type, m: Member)
    requires t.metadataType.Some? && IsMethodBase(m.kind)
    requires forall x :: x in t.metadataType.value.members && IsInstanceMatch(x, m.name, m.kind) ==>
      !MatchMethodBase(x, m.parameterTypes)
    ensures GetMatchingElement(MemberElem(t, m)) == MemberElem(t, m)
  {
  }

  /**
   * A member of a type that names a metadata type is redirected exactly when the companion has a
   * same-named, same-kind instance member (with the same parameter types for
   * methods and constructors).
   */
  lemma MemberRedirectedIffCandidate(t: Type, m: Member)
    requires t.metadataType.Some?
    ensures GetMatchingElement(MemberElem(t, m)) != MemberElem(t, m) <==>
      exists x :: x in t.metadataType.value.members && IsInstanceMatch(x, m.name, m.kind) &&
                  (IsMethodBase(m.kind) ==> MatchMethodBase(x, m.parameterTypes))
  {
  }

  // ---------------------------------------------------------------------------
  // Attribute lookup through the resolution
  // ---------------------------------------------------------------------------

  /** Without a metadata type, the attributes are the element's own. */
  lemma UnredirectedAttributesAreOwn(element: Element, attributeType: TypeId, isA: (TypeId, TypeId) -> bool)
    requires SourceType(element).metadataType.None?
    ensures GetCustomAttributes(element, attributeType, isA) ==
            AttributesOfType(DeclaredAttributes(element), attributeType, isA)
  {
  }

  /** A type's attributes are read from its companion type, not from the type itself. */
  lemma TypeAttributesComeFromCompanion(t: Type, attributeType: TypeId, isA: (TypeId, TypeId) -> bool)
    requires t.metadataType.Some?
    ensures GetCustomAttributes(TypeElem(t), attributeType, isA) ==
            AttributesOfType(t.metadataType.value.attributes, attributeType, isA)
  {
  }

  /**
   * Once a member is redirected, the attributes are those declared on the
   * companion member: an attribute on the original member only that the
   * companion member lacks is not returned.
   */
  lemma RedirectedMemberAttributesComeFromCompanion(t: Type, m: Member, attributeType: TypeId,
                                                   isA: (TypeId, TypeId) -> bool, a: Attr)
    requires GetMatchingElement(MemberElem(t, m)) != MemberElem(t, m)
    requires a in m.attributes
    requires a !in GetMatchingElement(MemberElem(t, m)).member.attributes
    ensures a !in GetCustomAttributes(MemberElem(t, m), attributeType, isA)
  {
  }
}
