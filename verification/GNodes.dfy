/** The recursive conversion of a JSON value into GLib nodes, as the code does
    it: nodes are allocated and appended in place while a cursor moves over
    them. `ParseAux` is proved to append exactly `Json.Flatten`. */
module GNodes {
  import opened CLib
  import opened Json

  class GNode {
    var data: Option<string>
    var children: seq<GNode>
    var parent: GNode?
    ghost var Repr: set<object>
    ghost var Value: Tree  // the subtree below this node, as a value

    ghost predicate Valid()
      reads this, Repr
      decreases Repr
    {
      && this in Repr
      && (forall i :: 0 <= i < |children| ==> ChildValid(children[i]))
      && (forall i, j :: 0 <= i < j < |children| ==> children[i].Repr !! children[j].Repr)
      && Value.data == data
      && |Value.children| == |children|
      && (forall i :: 0 <= i < |children| ==> Value.children[i] == children[i].Value)
    }

    ghost predicate ChildValid(child: GNode)
      requires this in Repr
      reads this, Repr
      decreases Repr, 0
    {
      child in Repr && child.Repr < Repr && this !in child.Repr && child.parent == this && child.Valid()
    }

    constructor (data: Option<string>)
      ensures Valid() && fresh(Repr)
      ensures Value == Tree(data, []) && children == [] && this.data == data && parent == null
    {
      this.data := data;
      children := [];
      parent := null;
      Repr := {this};
      Value := Tree(data, []);
    }

    /** g_node_append: makes `child` the last child and returns it. */
    method Append(child: GNode) returns (r: GNode)
      requires Valid() && child.Valid() && Repr !! child.Repr
      modifies this, child`parent
      ensures Valid() && r == child
      ensures Repr == old(Repr) + child.Repr
      ensures children == old(children) + [child] && child.parent == this
      ensures Value == Tree(data, old(Value).children + [child.Value])
      ensures data == old(data) && parent == old(parent)
    {
      assert forall i :: 0 <= i < |child.children| ==> child.ChildValid(child.children[i]);
      child.parent := this;
      assert forall i :: 0 <= i < |child.children| ==> child.ChildValid(child.children[i]);
      assert child.Valid();
      children := children + [child];
      Repr := Repr + child.Repr;
      Value := Tree(Value.data, Value.children + [child.Value]);
      r := child;
      forall i | 0 <= i < |old(children)| ensures ChildValid(children[i]) {
        assert old(ChildValid(children[i]));
      }
      assert ChildValid(child);
    }

    /** What is left of Valid() when the subtree of the last child has grown. */
    ghost predicate ValidButLast()
      reads this, Repr, if children == [] then {} else {children[|children| - 1]},
            if children == [] then {} else children[|children| - 1].Repr
    {
      && children != []
      && var last := children[|children| - 1];
      && this in Repr && this !in last.Repr && last.parent == this && last.Valid()
      && (forall i :: 0 <= i < |children| - 1 ==> ChildValid(children[i]))
      && (forall i, j :: 0 <= i < j < |children| ==> children[i].Repr !! children[j].Repr)
      && Value.data == data
      && |Value.children| == |children|
      && (forall i :: 0 <= i < |children| - 1 ==> Value.children[i] == children[i].Value)
    }

    ghost method Regrow()
      requires ValidButLast()
      modifies this`Repr, this`Value
      ensures Valid()
      ensures Repr == old(Repr) + children[|children| - 1].Repr
      ensures Value == Tree(data, old(Value).children[..|children| - 1] + [children[|children| - 1].Value])
    {
      var last := children[|children| - 1];
      Repr := Repr + last.Repr;
      Value := Tree(data, Value.children[..|children| - 1] + [last.Value]);
      forall i | 0 <= i < |children| - 1 ensures ChildValid(children[i]) {
        assert old(ChildValid(children[i]));
      }
      assert ChildValid(last);
    }
  }

  /** Appends to `node` the children that `root` flattens to, and nothing else. */
  method ParseAux(root: Json, node: GNode, parsingArray: bool)
    requires node.Valid()
    modifies node
    ensures node.Valid() && fresh(node.Repr - old(node.Repr))
    ensures old(node.children) <= node.children
    ensures node.data == old(node.data) && node.parent == old(node.parent)
    ensures node.Value.children == old(node.Value.children) + Flatten(root, parsingArray)
    decreases root, 3
  {
    match root
    case JObject(members) => ParseObject(members, node);
    case JArray(elements) => ParseArray(elements, node);
    case JNull =>
    case _ => ParseScalar(root, node, parsingArray);
  }

  /** A scalar is one child, with an empty one below it inside an array. */
  method ParseScalar(root: Json, node: GNode, parsingArray: bool)
    requires node.Valid() && !root.JObject? && !root.JArray? && !root.JNull?
    modifies node
    ensures node.Valid() && fresh(node.Repr - old(node.Repr))
    ensures old(node.children) <= node.children
    ensures node.data == old(node.data) && node.parent == old(node.parent)
    ensures node.Value.children
         == old(node.Value.children) + [Tree(Some(ScalarText(root)), if parsingArray then [SEPARATOR] else [])]
  {
    hide ScalarText;
    var leaf := new GNode(Some(ScalarText(root)));
    var cursor := node.Append(leaf);
    if parsingArray {
      AppendSeparator(node, cursor);
    }
  }

  /** The cursor moves to each node appended; the next append goes through the
      cursor's parent, which is the given node. */
  method ParseObject(members: seq<Member>, node: GNode)
    requires node.Valid()
    modifies node
    ensures node.Valid() && fresh(node.Repr - old(node.Repr))
    ensures old(node.children) <= node.children
    ensures node.data == old(node.data) && node.parent == old(node.parent)
    ensures node.Value.children
         == old(node.Value.children) + ([SEPARATOR] + FlattenMembers(members))
    decreases members, 2
  {
    var separator := new GNode(None);
    var cursor := node.Append(separator);
    var j := 0;
    while j < |members|
      invariant 0 <= j <= |members|
      invariant node.Valid() && fresh(node.Repr - old(node.Repr))
      invariant old(node.children) <= node.children
      invariant node.data == old(node.data) && node.parent == old(node.parent)
      invariant cursor.parent == node
      invariant node.Value.children
             == old(node.Value.children) + ([SEPARATOR] + FlattenMembers(members[..j]))
    {
      cursor := ParseMember(members[j], node, cursor);
      assert members[..j + 1][..j] == members[..j];
      j := j + 1;
    }
    assert members[..j] == members;
  }

  method ParseArray(elements: seq<Json>, node: GNode)
    requires node.Valid()
    modifies node
    ensures node.Valid() && fresh(node.Repr - old(node.Repr))
    ensures old(node.children) <= node.children
    ensures node.data == old(node.data) && node.parent == old(node.parent)
    ensures node.Value.children == old(node.Value.children) + FlattenElements(elements)
    decreases elements, 2
  {
    var i := 0;
    while i < |elements|
      invariant 0 <= i <= |elements|
      invariant node.Valid() && fresh(node.Repr - old(node.Repr))
      invariant old(node.children) <= node.children
      invariant node.data == old(node.data) && node.parent == old(node.parent)
      invariant node.Value.children == old(node.Value.children) + FlattenElements(elements[..i])
    {
      ParseAux(elements[i], node, true);
      assert elements[..i + 1][..i] == elements[..i];
      i := i + 1;
    }
    assert elements[..i] == elements;
  }

  /** One turn of the object case: the key, then its value below the key. */
  method ParseMember(m: Member, ghost node: GNode, cursor: GNode) returns (next: GNode)
    requires node.Valid() && cursor.parent == node
    modifies node
    ensures node.Valid() && fresh(node.Repr - old(node.Repr))
    ensures next.parent == node
    ensures old(node.children) <= node.children
    ensures node.data == old(node.data) && node.parent == old(node.parent)
    ensures node.Value.children == old(node.Value.children) + [FlattenMember(m)]
    decreases m, 5
  {
    var keyNode := new GNode(Some(m.key));
    next := cursor.parent.Append(keyNode);
    assert node.ChildValid(next);
    ParseBelowLast(m.value, node, next);
  }

  method ParseBelowLast(j: Json, ghost node: GNode, last: GNode)
    requires node.Valid() && node.children != [] && last == node.children[|node.children| - 1]
    requires last.children == []
    modifies node, last
    ensures node.Valid() && fresh(node.Repr - old(node.Repr))
    ensures node.children == old(node.children)
    ensures node.data == old(node.data) && node.parent == old(node.parent)
    ensures last.parent == node
    ensures node.Value.children
         == old(node.Value.children)[..|node.children| - 1] + [Tree(old(last.data), Flatten(j, false))]
    decreases j, 4
  {
    assert node.ChildValid(last);
    ParseAux(j, last, false);
    forall i | 0 <= i < |node.children| - 1 ensures node.ChildValid(node.children[i]) {
      assert old(node.ChildValid(node.children[i]));
    }
    assert last.Value.children == Flatten(j, false);
    node.Regrow();
  }

  /** Appends a node without data below the last child of `node`. */
  method AppendSeparator(ghost node: GNode, last: GNode)
    requires node.Valid() && node.children != [] && last == node.children[|node.children| - 1]
    requires last.children == []
    modifies node, last
    ensures node.Valid() && fresh(node.Repr - old(node.Repr))
    ensures node.children == old(node.children)
    ensures node.data == old(node.data) && node.parent == old(node.parent)
    ensures node.Value.children == old(node.Value.children)[..|node.children| - 1] + [Tree(last.data, [SEPARATOR])]
    ensures last.data == old(last.data)
  {
    assert node.ChildValid(last);
    var separator := new GNode(None);
    var _ := last.Append(separator);
    assert last.Value.children == [SEPARATOR];
    forall i | 0 <= i < |node.children| - 1 ensures node.ChildValid(node.children[i]) {
      assert old(node.ChildValid(node.children[i]));
    }
    node.Regrow();
  }
}
