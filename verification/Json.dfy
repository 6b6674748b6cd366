/** JSON values, the trees they are flattened into, and the flattening as a
    recursive function. Several objects in one array share one child list,
    in which a child without data announces each object. */
module Json {
  import opened CLib

  datatype Member = Member(key: string, value: Json)

  datatype Json =
    | JObject(members: seq<Member>)
    | JArray(elements: seq<Json>)
    | JString(text: string)
    | JInt(number: int)
    | JBool(truth: bool)
    | JNull

  /** The value of a GLib node: its data (None for NULL) and its subtrees. */
  datatype Tree = Tree(data: Option<string>, children: seq<Tree>)

  const SEPARATOR := Tree(None, [])

  predicate IsScalar(j: Json) { j.JString? || j.JInt? || j.JBool? }

  function ScalarText(j: Json): string
    requires IsScalar(j)
  {
    match j
    case JString(text) => text
    case JInt(number) => SignedDecimal(number)
    case JBool(truth) => if truth then "true" else "false"
  }

  /** The children a JSON value contributes to the node it is parsed into. */
  function Flatten(j: Json, inArray: bool): seq<Tree>
    decreases j, 1
  {
    match j
    case JObject(members) => [SEPARATOR] + FlattenMembers(members)
    case JArray(elements) => FlattenElements(elements)
    case JNull => []
    case _ => [Tree(Some(ScalarText(j)), if inArray then [SEPARATOR] else [])]
  }

  function FlattenMembers(members: seq<Member>): (r: seq<Tree>)
    ensures |r| == |members|
    decreases members, 0
  {
    if members == [] then []
    else FlattenMembers(members[..|members| - 1]) + [FlattenMember(members[|members| - 1])]
  }

  function FlattenMember(m: Member): Tree
    decreases m, 2
  {
    Tree(Some(m.key), Flatten(m.value, false))
  }

  function FlattenElements(elements: seq<Json>): seq<Tree>
    decreases elements, 0
  {
    if elements == [] then []
    else FlattenElements(elements[..|elements| - 1]) + Flatten(elements[|elements| - 1], true)
  }

  lemma FlattenObject(members: seq<Member>, inArray: bool)
    ensures Flatten(JObject(members), inArray) == [SEPARATOR] + FlattenMembers(members)
  {
  }

  lemma FlattenObjectSnoc(members: seq<Member>)
    requires members != []
    ensures Flatten(JObject(members), false)
         == Flatten(JObject(members[..|members| - 1]), false) + [FlattenMember(members[|members| - 1])]
  {
    var front, last := members[..|members| - 1], members[|members| - 1];
    FlattenObject(members, false);
    FlattenObject(front, false);
    assert FlattenMembers(members) == FlattenMembers(front) + [FlattenMember(last)];
  }
}
