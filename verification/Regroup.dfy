/** The state machine shared by the section handlers. An array of objects
    arrives as one flat child list in which a node without data announces each
    object. A handler keeps the item under construction in a static variable,
    saves it when the next object begins or the list ends, and stops at the
    first error. */
module Regroup {
  import opened CLib
  import opened Json
  import opened Sections

  /** How one kind of item starts, takes a node (None is an error), and is
      judged when it is saved. */
  datatype Kind<!T> = Kind(blank: T, complete: T -> bool, fill: (T, Tree) -> Option<T>)

  /** The two static variables and the list being filled. */
  datatype Acc<T> = Acc(current: Option<T>, failed: bool, saved: seq<T>)

  function Save<T>(kind: Kind<T>, acc: Acc<T>): Acc<T> {
    if acc.current.None? then acc
    else if kind.complete(acc.current.value) then Acc(None, acc.failed, acc.saved + [acc.current.value])
    else Acc(None, true, acc.saved)
  }

  function Step<T>(kind: Kind<T>, acc: Acc<T>, node: Tree): Acc<T> {
    if acc.failed then acc
    else if node.data.None? then Save(kind, acc)
    else if node.children == [] then acc
    else
      match kind.fill(if acc.current.Some? then acc.current.value else kind.blank, node)
      case Some(t) => Acc(Some(t), false, acc.saved)
      case None => Acc(None, true, acc.saved)
  }

  function Fold<T>(kind: Kind<T>, acc: Acc<T>, nodes: seq<Tree>): Acc<T> {
    if nodes == [] then acc
    else Step(kind, Fold(kind, acc, nodes[..|nodes| - 1]), nodes[|nodes| - 1])
  }

  lemma FoldSnoc<T>(kind: Kind<T>, acc: Acc<T>, nodes: seq<Tree>, i: nat)
    requires i < |nodes|
    ensures Fold(kind, acc, nodes[..i + 1]) == Step(kind, Fold(kind, acc, nodes[..i]), nodes[i])
  {
    assert nodes[..i + 1][..i] == nodes[..i];
  }

  lemma {:induction false} FoldAppend<T>(kind: Kind<T>, acc: Acc<T>, xs: seq<Tree>, ys: seq<Tree>)
    ensures Fold(kind, acc, xs + ys) == Fold(kind, Fold(kind, acc, xs), ys)
  {
    if ys == [] {
      assert xs + ys == xs;
    } else {
      var n := |ys| - 1;
      assert (xs + ys)[..|xs + ys| - 1] == xs + ys[..n];
      FoldAppend(kind, acc, xs, ys[..n]);
    }
  }

  /** An error leaves no item behind in the static variable. */
  lemma {:induction false} FailureClears<T>(kind: Kind<T>, start: Acc<T>, nodes: seq<Tree>)
    requires !start.failed
    ensures Fold(kind, start, nodes).failed ==> Fold(kind, start, nodes).current.None?
  {
    if nodes != [] {
      FailureClears(kind, start, nodes[..|nodes| - 1]);
    }
  }

  lemma {:induction false} FoldFailed<T>(kind: Kind<T>, acc: Acc<T>, nodes: seq<Tree>)
    requires acc.failed
    ensures Fold(kind, acc, nodes) == acc
  {
    if nodes != [] {
      FoldFailed(kind, acc, nodes[..|nodes| - 1]);
    }
  }

  // ----- what is decoded, in terms of JSON objects -----

  /** `item` says which item an object stands for (None: an error in filling);
      `typed` says which objects it speaks about. They fit a kind when each
      further non-empty member has the effect of `fill`. */
  ghost predicate Fits<T(!new)>(kind: Kind<T>, typed: seq<Member> -> bool, item: seq<Member> -> Option<T>) {
    && item([]) == Some(kind.blank)
    && forall ms: seq<Member> {:trigger FitsLast(kind, typed, item, ms)} ::
         typed(ms) && ms != [] ==> FitsLast(kind, typed, item, ms)
  }

  ghost predicate FitsLast<T>(
    kind: Kind<T>, typed: seq<Member> -> bool, item: seq<Member> -> Option<T>, ms: seq<Member>)
    requires ms != []
  {
    var front, last := ms[..|ms| - 1], ms[|ms| - 1];
    && typed(front)
    && (!NonEmpty(last) ==> item(ms) == item(front))
    && (NonEmpty(last) && item(front).None? ==> item(ms).None?)
    && (NonEmpty(last) && item(front).Some? ==>
          item(ms) == kind.fill(item(front).value, FlattenMember(last)))
  }

  predicate Bad<T>(kind: Kind<T>, item: seq<Member> -> Option<T>, object_: seq<Member>) {
    item(object_).None? || (HasNonEmpty(object_) && !kind.complete(item(object_).value))
  }

  /** The index of the first bad object, or the number of objects. */
  function FirstBad<T>(kind: Kind<T>, item: seq<Member> -> Option<T>, objects: seq<seq<Member>>): (k: nat)
    ensures k <= |objects| && (k < |objects| ==> Bad(kind, item, objects[k]))
    ensures forall i :: 0 <= i < k ==> !Bad(kind, item, objects[i])
  {
    if objects == [] then 0
    else
      var k := FirstBad(kind, item, objects[..|objects| - 1]);
      if k < |objects| - 1 || Bad(kind, item, objects[k]) then k else k + 1
  }

  /** One item per object that has a non-empty member, in order. */
  function Items<T>(item: seq<Member> -> Option<T>, objects: seq<seq<Member>>): seq<T> {
    if objects == [] then []
    else
      var last := objects[|objects| - 1];
      Items(item, objects[..|objects| - 1])
        + if HasNonEmpty(last) && item(last).Some? then [item(last).value] else []
  }

  predicate AllTyped(typed: seq<Member> -> bool, objects: seq<seq<Member>>) {
    forall i :: 0 <= i < |objects| ==> typed(objects[i])
  }

  function ObjectArray(objects: seq<seq<Member>>): seq<Json> {
    seq(|objects|, i requires 0 <= i < |objects| => JObject(objects[i]))
  }

  /** One object's nodes build its item, if it has any non-empty member. */
  lemma {:induction false} FoldMembers<T(!new)>(kind: Kind<T>, typed: seq<Member> -> bool,
      item: seq<Member> -> Option<T>, saved: seq<T>, ms: seq<Member>)
    requires Fits(kind, typed, item) && typed(ms)
    ensures Fold(kind, Acc(None, false, saved), FlattenMembers(ms))
         == if item(ms).None? then Acc(None, true, saved)
            else Acc(if HasNonEmpty(ms) then item(ms) else None, false, saved)
    ensures !HasNonEmpty(ms) ==> item(ms) == Some(kind.blank)
  {
    if ms != [] {
      assert FitsLast(kind, typed, item, ms);
      FoldMembers(kind, typed, item, saved, ms[..|ms| - 1]);
      HasNonEmptySnoc(ms);
    }
  }

  /** One more object: its separator saves the item before it, then its own
      members build the next one. */
  lemma FoldObject<T(!new)>(kind: Kind<T>, typed: seq<Member> -> bool, item: seq<Member> -> Option<T>,
      start: Acc<T>, before: seq<Tree>, ms: seq<Member>)
    requires Fits(kind, typed, item) && typed(ms) && start == Acc(None, false, start.saved)
    ensures var acc := Save(kind, Fold(kind, start, before));
      Save(kind, Fold(kind, start, before + Flatten(JObject(ms), true)))
        == if acc.failed then acc
           else if Bad(kind, item, ms) then Acc(None, true, acc.saved)
           else Acc(None, false, acc.saved + if HasNonEmpty(ms) then [item(ms).value] else [])
  {
    var nodes := before + [SEPARATOR];
    assert Flatten(JObject(ms), true) == [SEPARATOR] + FlattenMembers(ms);
    assert before + Flatten(JObject(ms), true) == nodes + FlattenMembers(ms);
    FoldAppend(kind, start, nodes, FlattenMembers(ms));
    assert nodes[..|before|] == before;
    FailureClears(kind, start, before);
    var acc := Save(kind, Fold(kind, start, before));
    assert Fold(kind, start, nodes) == acc;
    if acc.failed {
      FoldFailed(kind, acc, FlattenMembers(ms));
    } else {
      FoldMembers(kind, typed, item, acc.saved, ms);
    }
  }

  /** The whole handler over an array of objects, the last save included. */
  function Run<T>(kind: Kind<T>, saved: seq<T>, objects: seq<seq<Member>>): Acc<T> {
    Save(kind, Fold(kind, Acc(None, false, saved), Flatten(JArray(ObjectArray(objects)), false)))
  }

  lemma RunSnoc<T(!new)>(kind: Kind<T>, typed: seq<Member> -> bool, item: seq<Member> -> Option<T>,
      saved: seq<T>, objects: seq<seq<Member>>)
    requires Fits(kind, typed, item) && objects != [] && typed(objects[|objects| - 1])
    ensures var acc := Run(kind, saved, objects[..|objects| - 1]); var ms := objects[|objects| - 1];
      Run(kind, saved, objects)
        == if acc.failed then acc
           else if Bad(kind, item, ms) then Acc(None, true, acc.saved)
           else Acc(None, false, acc.saved + if HasNonEmpty(ms) then [item(ms).value] else [])
  {
    var n := |objects| - 1;
    var all := ObjectArray(objects);
    assert all[..n] == ObjectArray(objects[..n]) && all[n] == JObject(objects[n]) && |all| == n + 1;
    assert Flatten(JArray(all), false) == FlattenElements(all[..n]) + Flatten(JObject(objects[n]), true);
    assert Flatten(JArray(all[..n]), false) == FlattenElements(all[..n]);
    FoldObject(kind, typed, item, Acc(None, false, saved), FlattenElements(all[..n]), objects[n]);
  }

  /** For every array of objects: the items before the first bad object, an
      error exactly if there is one, and no item left in the static variable. */
  lemma {:induction false} Decode<T(!new)>(kind: Kind<T>, typed: seq<Member> -> bool,
      item: seq<Member> -> Option<T>, saved: seq<T>, objects: seq<seq<Member>>)
    requires Fits(kind, typed, item) && AllTyped(typed, objects)
    ensures var k := FirstBad(kind, item, objects);
      Run(kind, saved, objects) == Acc(None, k < |objects|, saved + Items(item, objects[..k]))
  {
    if objects == [] {
      assert ObjectArray(objects) == [];
    } else {
      hide Run, Fits;
      var n := |objects| - 1;
      var front := objects[..n];
      Decode(kind, typed, item, saved, front);
      RunSnoc(kind, typed, item, saved, objects);
      var k := FirstBad(kind, item, front);
      assert objects[..k] == front[..k];
      if k == n {
        assert front[..k] == front && objects[..n + 1] == objects;
      }
    }
  }
}
