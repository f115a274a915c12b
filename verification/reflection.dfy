/**
 * An explicit model of the part of the .NET reflection world that the
 * validation block's metadata redirection consults: types, their members,
 * the ModelMetadataType attribute that links a type to its companion
 * metadata type, and the member lookup `Type.GetMember(name, kind,
 * Instance | Public | NonPublic)`.
 */
module Reflection {

  datatype Option<+T> = None | Some(value: T)

  /** The identity of a type (its full name). */
  type TypeId = string

  /** The values of `MemberTypes` a non-type member can have. */
  datatype MemberKind = Constructor | Event | Field | Method | Property | Custom

  /** A custom attribute: the type of the attribute class and its arguments, otherwise opaque. */
  datatype Attr = Attr(attrType: TypeId, arguments: seq<string>)

  /** A member of a type; `parameterTypes` is meaningful for methods and constructors. */
  datatype Member = Member(
    name: string,
    kind: MemberKind,
    isStatic: bool,
    parameterTypes: seq<TypeId>,
    attributes: seq<Attr>)

  /**
   * A type. `metadataType` is the `MetadataType` of the ModelMetadataType
   * attribute declared on the type itself (inherited attributes are not
   * looked at), or None when the type does not carry one. `members` is the
   * type's members in the order the member lookup returns them.
   */
  datatype Type = Type(
    id: TypeId,
    metadataType: Option<Type>,
    members: seq<Member>,
    attributes: seq<Attr>)

  /** A `MemberInfo`: either a type itself or a member together with its declaring type. */
  datatype Element = TypeElem(t: Type) | MemberElem(declaringType: Type, member: Member)

  /** Whether a member of this kind is a `MethodBase` (a method or a constructor). */
  predicate IsMethodBase(kind: MemberKind) {
    kind == Method || kind == Constructor
  }

  /** What `GetMember` with Instance | Public | NonPublic accepts: same name, same kind, not static. */
  predicate IsInstanceMatch(x: Member, name: string, kind: MemberKind) {
    x.name == name && x.kind == kind && !x.isStatic
  }

  /** The overload test: the candidate's parameter types are exactly the given ones, in order. */
  predicate MatchMethodBase(candidate: Member, parameterTypes: seq<TypeId>): (r: bool)
    ensures r <==> |candidate.parameterTypes| == |parameterTypes| &&
                   forall i :: 0 <= i < |parameterTypes| ==> candidate.parameterTypes[i] == parameterTypes[i]
  {
    candidate.parameterTypes == parameterTypes
  }

  /** `i` is the position of the first instance member named `name` of kind `kind`. */
  ghost predicate FirstInstanceMatchAt(members: seq<Member>, name: string, kind: MemberKind, i: int) {
    0 <= i < |members| && IsInstanceMatch(members[i], name, kind) &&
    forall j :: 0 <= j < i ==> !IsInstanceMatch(members[j], name, kind)
  }

  /** `i` is the position of the first instance overload named `name` of kind `kind` taking `parameterTypes`. */
  ghost predicate FirstOverloadAt(members: seq<Member>, name: string, kind: MemberKind,
                                  parameterTypes: seq<TypeId>, i: int) {
    0 <= i < |members| &&
    IsInstanceMatch(members[i], name, kind) && MatchMethodBase(members[i], parameterTypes) &&
    forall j :: 0 <= j < i ==>
      !(IsInstanceMatch(members[j], name, kind) && MatchMethodBase(members[j], parameterTypes))
  }

  /**
   * `Type.GetMember(name, kind, Instance | Public | NonPublic)` over a
   * type's members: the instance members with that name and kind, in lookup order.
   */
  function GetMember(members: seq<Member>, name: string, kind: MemberKind): (r: seq<Member>)
    ensures forall x :: x in r <==> x in members && IsInstanceMatch(x, name, kind)
    ensures |r| <= |members|
  {
    if members == [] then []
    else
      var rest := GetMember(members[1..], name, kind);
      if IsInstanceMatch(members[0], name, kind) then [members[0]] + rest else rest
  }

  /** `FirstOrDefault(mb => MatchMethodBase(mb, parameterTypes))` over a candidate list. */
  function FirstMatchingMethod(candidates: seq<Member>, parameterTypes: seq<TypeId>): (r: Option<Member>)
    ensures r.Some? ==> r.value in candidates && MatchMethodBase(r.value, parameterTypes)
    ensures r.None? <==> forall x :: x in candidates ==> !MatchMethodBase(x, parameterTypes)
  {
    if candidates == [] then None
    else if MatchMethodBase(candidates[0], parameterTypes) then Some(candidates[0])
    else FirstMatchingMethod(candidates[1..], parameterTypes)
  }

  /** The head of the lookup result is the first instance match in declaration order. */
  lemma {:induction false} GetMemberFirst(members: seq<Member>, name: string, kind: MemberKind, i: int)
    requires FirstInstanceMatchAt(members, name, kind, i)
    ensures |GetMember(members, name, kind)| > 0
    ensures GetMember(members, name, kind)[0] == members[i]
  {
    if i > 0 {
      assert !IsInstanceMatch(members[0], name, kind);
      assert FirstInstanceMatchAt(members[1..], name, kind, i - 1) by {
        forall j | 0 <= j < i - 1 ensures !IsInstanceMatch(members[1..][j], name, kind) {
          assert members[1..][j] == members[j + 1];
        }
      }
      GetMemberFirst(members[1..], name, kind, i - 1);
    }
  }

  /**
   * Looking up the candidates and then picking the first one whose parameter
   * types match finds the first matching overload in declaration order.
   */
  lemma {:induction false} FirstOverloadFound(members: seq<Member>, name: string, kind: MemberKind,
                                              parameterTypes: seq<TypeId>, i: int)
    requires FirstOverloadAt(members, name, kind, parameterTypes, i)
    ensures FirstMatchingMethod(GetMember(members, name, kind), parameterTypes) == Some(members[i])
  {
    if i > 0 {
      assert FirstOverloadAt(members[1..], name, kind, parameterTypes, i - 1) by {
        forall j | 0 <= j < i - 1
          ensures !(IsInstanceMatch(members[1..][j], name, kind) && MatchMethodBase(members[1..][j], parameterTypes))
        {
          assert members[1..][j] == members[j + 1];
        }
      }
      FirstOverloadFound(members[1..], name, kind, parameterTypes, i - 1);
      assert !(IsInstanceMatch(members[0], name, kind) && MatchMethodBase(members[0], parameterTypes));
    }
  }
}
