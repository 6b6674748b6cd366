/** Lookups in JSON objects, the terms in which the section decoders are specified. */
module Sections {
  import opened CLib
  import opened Json

  predicate DistinctKeys(members: seq<Member>) {
    forall i, j :: 0 <= i < j < |members| ==> members[i].key != members[j].key
  }

  function Lookup(members: seq<Member>, key: string): Option<Json> {
    if members == [] then None
    else if members[|members| - 1].key == key then Some(members[|members| - 1].value)
    else Lookup(members[..|members| - 1], key)
  }

  lemma {:induction false} LookupAbsent(members: seq<Member>, key: string)
    requires forall i :: 0 <= i < |members| ==> members[i].key != key
    ensures Lookup(members, key) == None
  {
    if members != [] {
      LookupAbsent(members[..|members| - 1], key);
    }
  }

  lemma {:induction false} LookupAt(members: seq<Member>, i: nat)
    requires DistinctKeys(members) && i < |members|
    ensures Lookup(members, members[i].key) == Some(members[i].value)
  {
    if i < |members| - 1 {
      LookupAt(members[..|members| - 1], i);
    }
  }

  /** With distinct keys, the last key is not among the others. */
  lemma LookupLast(members: seq<Member>)
    requires members != [] && DistinctKeys(members)
    ensures DistinctKeys(members[..|members| - 1])
    ensures Lookup(members[..|members| - 1], members[|members| - 1].key) == None
  {
    LookupAbsent(members[..|members| - 1], members[|members| - 1].key);
  }

  /** The member gives its node a child: it is neither null nor an empty array. */
  predicate NonEmpty(m: Member) { Flatten(m.value, false) != [] }

  predicate HasNonEmpty(members: seq<Member>) {
    exists i :: 0 <= i < |members| && NonEmpty(members[i])
  }

  lemma HasNonEmptySnoc(members: seq<Member>)
    requires members != []
    ensures var n := |members| - 1;
      HasNonEmpty(members) <==> HasNonEmpty(members[..n]) || NonEmpty(members[n])
  {
  }

  /** A string where one is required, if the member is there at all. */
  predicate StringOrAbsent(v: Option<Json>) { v.Some? ==> v.value.JString? }

  predicate AllStrings(elements: seq<Json>) {
    forall i :: 0 <= i < |elements| ==> elements[i].JString?
  }

  predicate StringsOrAbsent(v: Option<Json>) {
    v.Some? ==> v.value.JArray? && AllStrings(v.value.elements)
  }

  function Text(v: Option<Json>): Option<string> {
    if v.Some? && v.value.JString? then Some(v.value.text) else None
  }

  function Texts(elements: seq<Json>): (r: seq<string>)
    requires AllStrings(elements)
    ensures |r| == |elements|
    ensures forall i :: 0 <= i < |r| ==> r[i] == elements[i].text
  {
    seq(|elements|, i requires 0 <= i < |elements| => elements[i].text)
  }

  /** An array of strings flattens to one leaf per string, in order. */
  lemma {:induction false} FlattenStrings(elements: seq<Json>)
    requires AllStrings(elements)
    ensures |FlattenElements(elements)| == |elements|
    ensures forall i :: 0 <= i < |elements| ==>
      FlattenElements(elements)[i] == Tree(Some(elements[i].text), [Tree(None, [])])
  {
    if elements != [] {
      FlattenStrings(elements[..|elements| - 1]);
    }
  }
}
