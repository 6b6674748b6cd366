/** The "hooks" section handler: three lists of hooks, each regrouped from the
    flat child list of an array of objects. */
module HooksSection {
  import opened CLib
  import opened Json
  import opened OciConfig
  import opened Regroup
  import opened Sections

  const PATH := "path"
  const ARGS := "args"
  const ENV := "env"
  const TIMEOUT := "timeout"
  const PRESTART := "prestart"
  const POSTSTART := "poststart"
  const POSTSTOP := "poststop"

  // ----- string vectors, which end at the first NULL -----

  function StrvOf(cells: seq<Option<string>>): seq<string> {
    if cells == [] || cells[0].None? then [] else [cells[0].value] + StrvOf(cells[1..])
  }

  function ChildData(nodes: seq<Tree>): (r: seq<Option<string>>) {
    seq(|nodes|, i requires 0 <= i < |nodes| => nodes[i].data)
  }

  method NodeToStrv(root: Tree) returns (strv: array<Option<string>>)
    ensures fresh(strv) && strv[..] == ChildData(root.children) + [None]
  {
    strv := new Option<string>[|root.children| + 1](_ => None);
    var i := 0;
    while i < |root.children|
      invariant 0 <= i <= |root.children|
      invariant strv[..i] == ChildData(root.children)[..i]
      invariant forall k :: i <= k < strv.Length ==> strv[k] == None
    {
      strv[i] := root.children[i].data;
      i := i + 1;
    }
    assert strv[..] == strv[..i] + [strv[i]];
  }

  /** A vector of strings keeps them all, with or without a terminator. */
  lemma {:induction false} StrvOfStrings(cells: seq<Option<string>>, texts: seq<string>, tail: seq<Option<string>>)
    requires |cells| == |texts| && (tail == [] || tail == [None])
    requires forall i :: 0 <= i < |texts| ==> cells[i] == Some(texts[i])
    ensures StrvOf(cells + tail) == texts
  {
    if cells == [] {
      assert cells + tail == tail;
    } else {
      assert (cells + tail)[1..] == cells[1..] + tail;
      StrvOfStrings(cells[1..], texts[1..], tail);
    }
  }

  lemma {:induction false} StrvTerminated(cells: seq<Option<string>>)
    ensures StrvOf(cells + [None]) == StrvOf(cells)
  {
    if cells != [] {
      assert (cells + [None])[1..] == cells[1..] + [None];
      StrvTerminated(cells[1..]);
    }
  }

  // ----- one hook -----

  function TimeoutOf(data: Option<string>): int {
    match data case Some(s) => Atoi(s) case None => 0
  }

  function Fill(h: Hook, node: Tree): Option<Hook> {
    if node.data.None? || node.children == [] then None
    else
      var key, text := node.data.value, node.children[0].data;
      if key == PATH then Some(h.(path := Printed(text)))
      else if key == ARGS then Some(h.(args := Some(StrvOf(ChildData(node.children)))))
      else if key == ENV then Some(h.(env := Some(StrvOf(ChildData(node.children)))))
      else if key == TIMEOUT then Some(h.(timeout := TimeoutOf(text)))
      else Some(h)
  }

  function Complete(h: Hook): bool { h.path != "" }

  const HOOKS: Kind<Hook> := Kind(NEW_HOOK, h => Complete(h), (h, node) => Fill(h, node))

  // ----- the whole section -----

  datatype Lists = Lists(prestart: seq<Hook>, poststart: seq<Hook>, poststop: seq<Hook>)
  {
    function Get(name: string): seq<Hook> {
      if name == PRESTART then prestart else if name == POSTSTART then poststart else poststop
    }

    function Set(name: string, hooks: seq<Hook>): Lists {
      if name == PRESTART then this.(prestart := hooks)
      else if name == POSTSTART then this.(poststart := hooks)
      else this.(poststop := hooks)
    }
  }

  predicate Known(name: string) { name == PRESTART || name == POSTSTART || name == POSTSTOP }

  datatype State = State(current: Option<Hook>, failed: bool, lists: Lists)

  function ListStep(s: State, node: Tree): State {
    if node.children == [] || s.failed || node.data.None? || !Known(node.data.value) then s
    else
      var acc := Save(HOOKS, Fold(HOOKS, Acc(s.current, false, s.lists.Get(node.data.value)), node.children));
      State(acc.current, acc.failed, s.lists.Set(node.data.value, acc.saved))
  }

  function ListFold(s: State, nodes: seq<Tree>): State {
    if nodes == [] then s else ListStep(ListFold(s, nodes[..|nodes| - 1]), nodes[|nodes| - 1])
  }

  // ----- the handler, as the code runs it -----

  class Handler {
    var currentHook: Option<Hook>
    var errorDetected: bool

    ghost function Pending(list: seq<Hook>): Acc<Hook>
      reads this
    {
      Acc(currentHook, errorDetected, list)
    }

    ghost function Snapshot(config: OciCfg): State
      reads this, config
    {
      State(currentHook, errorDetected, Lists(config.prestart, config.poststart, config.poststop))
    }

    constructor ()
      ensures currentHook.None? && !errorDetected
    {
      currentHook := None;
      errorDetected := false;
    }

    method SaveCurrentHook(list: seq<Hook>) returns (saved: seq<Hook>)
      modifies this
      ensures Pending(saved) == Save(HOOKS, old(Pending(list)))
    {
      saved := list;
      if currentHook.None? {
        return;
      }
      if currentHook.value.path == "" {
        errorDetected := true;
      } else {
        saved := saved + [currentHook.value];
      }
      currentHook := None;
    }

    method HandleHook(root: Tree, list: seq<Hook>) returns (saved: seq<Hook>)
      modifies this
      ensures Pending(saved) == Step(HOOKS, old(Pending(list)), root)
    {
      saved := list;
      if errorDetected {
        return;
      }
      if root.data.None? {
        saved := SaveCurrentHook(list);
      } else if root.children != [] {
        if currentHook.None? {
          currentHook := Some(NEW_HOOK);
        }
        var h := currentHook.value;
        if root.data.value == PATH {
          h := h.(path := Printed(root.children[0].data));
        } else if root.data.value == ARGS {
          var strv := NodeToStrv(root);
          StrvTerminated(ChildData(root.children));
          h := h.(args := Some(StrvOf(strv[..])));
        } else if root.data.value == ENV {
          var strv := NodeToStrv(root);
          StrvTerminated(ChildData(root.children));
          h := h.(env := Some(StrvOf(strv[..])));
        } else if root.data.value == TIMEOUT {
          h := h.(timeout := TimeoutOf(root.children[0].data));
        }
        currentHook := Some(h);
      }
    }

    method HandleList(nodes: seq<Tree>, list: seq<Hook>) returns (saved: seq<Hook>)
      requires !errorDetected
      modifies this
      ensures Pending(saved) == Save(HOOKS, Fold(HOOKS, old(Pending(list)), nodes))
    {
      ghost var start := Pending(list);
      saved := list;
      var i := 0;
      while i < |nodes|
        invariant 0 <= i <= |nodes|
        invariant Pending(saved) == Fold(HOOKS, start, nodes[..i])
      {
        saved := HandleHook(nodes[i], saved);
        FoldSnoc(HOOKS, start, nodes, i);
        i := i + 1;
      }
      assert nodes[..i] == nodes;
      saved := SaveCurrentHook(saved);
    }

    method HandleHooksSection(root: Tree, config: OciCfg)
      modifies this, config`prestart, config`poststart, config`poststop
      ensures Snapshot(config) == ListStep(old(Snapshot(config)), root)
    {
      if root.children == [] || errorDetected {
        return;
      }
      if root.data == Some(PRESTART) {
        config.prestart := HandleList(root.children, config.prestart);
      } else if root.data == Some(POSTSTART) {
        config.poststart := HandleList(root.children, config.poststart);
      } else if root.data == Some(POSTSTOP) {
        config.poststop := HandleList(root.children, config.poststop);
      }
    }

    /** `root` is the "hooks" node, None when there is none. */
    method HandleSection(root: Option<Tree>, config: OciCfg) returns (ok: bool)
      modifies this, config`prestart, config`poststart, config`poststop
      ensures root.None? ==> !ok && Snapshot(config) == old(Snapshot(config)).(failed := false)
      ensures root.Some? ==>
        && Snapshot(config) == ListFold(old(Snapshot(config)).(failed := false), root.value.children)
        && ok == !errorDetected
    {
      errorDetected := false;
      if root.None? {
        return false;
      }
      ghost var start := Snapshot(config);
      var nodes := root.value.children;
      var i := 0;
      while i < |nodes|
        invariant 0 <= i <= |nodes|
        invariant Snapshot(config) == ListFold(start, nodes[..i])
      {
        HandleHooksSection(nodes[i], config);
        assert nodes[..i + 1][..i] == nodes[..i];
        i := i + 1;
      }
      assert nodes[..i] == nodes;
      return !errorDetected;
    }
  }

  // ----- what the handler decodes, in terms of the JSON it came from -----

  predicate WellTyped(members: seq<Member>) {
    && DistinctKeys(members)
    && StringOrAbsent(Lookup(members, PATH))
    && StringsOrAbsent(Lookup(members, ARGS))
    && StringsOrAbsent(Lookup(members, ENV))
    && NumberOrAbsent(Lookup(members, TIMEOUT))
  }

  predicate NumberOrAbsent(v: Option<Json>) {
    v.Some? ==> v.value.JInt? && LONG_MIN <= v.value.number <= LONG_MAX
  }

  function Vector(v: Option<Json>): Option<seq<string>> {
    if v.Some? && v.value.JArray? && AllStrings(v.value.elements) && v.value.elements != []
    then Some(Texts(v.value.elements)) else None
  }

  function HookOf(members: seq<Member>): Hook {
    var path, timeout := Text(Lookup(members, PATH)), Lookup(members, TIMEOUT);
    Hook(if path.Some? then path.value else "",
         Vector(Lookup(members, ARGS)), Vector(Lookup(members, ENV)),
         if timeout.Some? && timeout.value.JInt? then ToInt32(timeout.value.number) else 0)
  }

  const HOOK_ITEM := (members: seq<Member>) => Some(HookOf(members))

  lemma VectorDecodes(v: Json)
    requires v.JArray? && AllStrings(v.elements) && v.elements != []
    ensures Some(StrvOf(ChildData(Flatten(v, false)))) == Vector(Some(v))
    ensures Flatten(v, false) != []
  {
    FlattenStrings(v.elements);
    var cells := ChildData(Flatten(v, false));
    assert cells + [] == cells;
    StrvOfStrings(cells, Texts(v.elements), []);
  }

  lemma TimeoutDecodes(v: Json)
    requires v.JInt? && LONG_MIN <= v.number <= LONG_MAX
    ensures |Flatten(v, false)| == 1
    ensures TimeoutOf(Flatten(v, false)[0].data) == ToInt32(v.number)
  {
    var text := SignedDecimal(v.number);
    assert Flatten(v, false) == [Tree(Some(text), [])];
    AtoiPrinted(v.number);
  }

  /** A member with a new key changes one field of the hook. */
  lemma HookFits(members: seq<Member>)
    requires members != [] && WellTyped(members)
    ensures FitsLast(HOOKS, WellTyped, HOOK_ITEM, members)
  {
    LookupLast(members);
    var front, last := members[..|members| - 1], members[|members| - 1];
    assert WellTyped(front);
    HookSnoc(members);
    if NonEmpty(last) {
      if last.key == ARGS || last.key == ENV {
        VectorDecodes(last.value);
      } else if last.key == TIMEOUT {
        TimeoutDecodes(last.value);
      }
    } else if last.key == ARGS || last.key == ENV {
      FlattenStrings(last.value.elements);
    }
  }

  function FillJson(h: Hook, m: Member): Hook {
    if m.key == PATH then h.(path := if m.value.JString? then m.value.text else "")
    else if m.key == ARGS then h.(args := Vector(Some(m.value)))
    else if m.key == ENV then h.(env := Vector(Some(m.value)))
    else if m.key == TIMEOUT then h.(timeout := if m.value.JInt? then ToInt32(m.value.number) else 0)
    else h
  }

  lemma HookSnoc(members: seq<Member>)
    requires members != []
    ensures var n := |members| - 1; HookOf(members) == FillJson(HookOf(members[..n]), members[n])
  {
  }

  lemma HooksFit()
    ensures Fits(HOOKS, WellTyped, HOOK_ITEM)
  {
    forall ms: seq<Member> | WellTyped(ms) && ms != []
      ensures FitsLast(HOOKS, WellTyped, HOOK_ITEM, ms)
    {
      HookFits(ms);
    }
  }

  /** The hook says something, but has no path or an empty one. */
  predicate Pathless(members: seq<Member>) {
    HasNonEmpty(members) && Text(Lookup(members, PATH)) in {None, Some("")}
  }

  lemma PathlessIsBad(members: seq<Member>)
    ensures Bad(HOOKS, HOOK_ITEM, members) <==> Pathless(members)
  {
  }

  predicate IsHookArray(v: Json) {
    && v.JArray?
    && forall i :: 0 <= i < |v.elements| ==>
         v.elements[i].JObject? && WellTyped(v.elements[i].members)
  }

  /** The hook objects of one list; none when the list is absent. */
  function HookObjects(sections: seq<Member>, name: string): seq<seq<Member>> {
    var v := Lookup(sections, name);
    if v.Some? && IsHookArray(v.value) then
      seq(|v.value.elements|, i requires 0 <= i < |v.value.elements| => v.value.elements[i].members)
    else []
  }

  /** The three known lists hold hook objects; other members may be anything. */
  predicate SectionsTyped(sections: seq<Member>) {
    && DistinctKeys(sections)
    && forall i :: 0 <= i < |sections| && Known(sections[i].key) ==> IsHookArray(sections[i].value)
  }

  predicate SomePathless(objects: seq<seq<Member>>) {
    exists i :: 0 <= i < |objects| && Pathless(objects[i])
  }

  /** The index of the first hook without a path, or the number of hooks. */
  function FirstPathless(objects: seq<seq<Member>>): (k: nat)
    ensures k <= |objects| && (k < |objects| ==> Pathless(objects[k]))
    ensures forall i :: 0 <= i < k ==> !Pathless(objects[i])
  {
    if objects == [] || Pathless(objects[0]) then 0 else 1 + FirstPathless(objects[1..])
  }

  predicate AnyPathless(sections: seq<Member>) {
    || SomePathless(HookObjects(sections, PRESTART))
    || SomePathless(HookObjects(sections, POSTSTART))
    || SomePathless(HookObjects(sections, POSTSTOP))
  }

  function Added(lists: Lists, sections: seq<Member>): Lists {
    Lists(lists.prestart + Items(HOOK_ITEM, HookObjects(sections, PRESTART)),
          lists.poststart + Items(HOOK_ITEM, HookObjects(sections, POSTSTART)),
          lists.poststop + Items(HOOK_ITEM, HookObjects(sections, POSTSTOP)))
  }

  predicate PathlessSection(m: Member) { Known(m.key) && SomePathless(HookObjects([m], m.key)) }

  /** The index of the first known list with a hook without a path, or the number of members. */
  function FirstPathlessSection(sections: seq<Member>): (k: nat)
    ensures k <= |sections| && (k < |sections| ==> PathlessSection(sections[k]))
  {
    if sections == [] then 0
    else
      var n := |sections| - 1;
      var k := FirstPathlessSection(sections[..n]);
      if k < n || PathlessSection(sections[n]) then k else n + 1
  }

  /** The lists after the members up to the first failure, and after the hooks before it
      in that list. */
  function Gained(lists: Lists, sections: seq<Member>): Lists {
    var k := FirstPathlessSection(sections);
    var before := Added(lists, sections[..k]);
    if k == |sections| then before
    else
      var key := sections[k].key;
      var objects := HookObjects([sections[k]], key);
      before.Set(key, before.Get(key) + Items(HOOK_ITEM, objects[..FirstPathless(objects)]))
  }

  /** One known list: the hooks before the first one without a path are appended. */
  lemma DecodeList(v: Json, saved: seq<Hook>, objects: seq<seq<Member>>)
    requires IsHookArray(v)
    requires objects == seq(|v.elements|, i requires 0 <= i < |v.elements| => v.elements[i].members)
    ensures var acc := Save(HOOKS, Fold(HOOKS, Acc(None, false, saved), Flatten(v, false)));
      && acc.current.None? && (acc.failed <==> SomePathless(objects))
      && acc.saved == saved + Items(HOOK_ITEM, objects[..FirstPathless(objects)])
      && (!acc.failed ==> acc.saved == saved + Items(HOOK_ITEM, objects))
  {
    HooksFit();
    Decode(HOOKS, WellTyped, HOOK_ITEM, saved, objects);
    assert ObjectArray(objects) == v.elements;
    var k := FirstBad(HOOKS, HOOK_ITEM, objects);
    assert v == JArray(ObjectArray(objects));
    forall i | 0 <= i < |objects| ensures Bad(HOOKS, HOOK_ITEM, objects[i]) <==> Pathless(objects[i]) {
      PathlessIsBad(objects[i]);
    }
    var p := FirstPathless(objects);
    assert k < |objects| ==> Pathless(objects[k]);
    assert p < |objects| ==> Bad(HOOKS, HOOK_ITEM, objects[p]);
    assert k == p;
    assert k == |objects| ==> objects[..k] == objects;
  }

  lemma KnownStep(s: State, m: Member)
    requires Known(m.key) && IsHookArray(m.value) && s.current.None? && !s.failed
    ensures var objects := HookObjects([m], m.key); var next := ListStep(s, FlattenMember(m));
      && next.current.None? && (next.failed <==> SomePathless(objects))
      && next.lists == s.lists.Set(m.key, s.lists.Get(m.key) + Items(HOOK_ITEM, objects[..FirstPathless(objects)]))
      && (!next.failed ==> next.lists == s.lists.Set(m.key, s.lists.Get(m.key) + Items(HOOK_ITEM, objects)))
  {
    var objects := HookObjects([m], m.key);
    DecodeList(m.value, s.lists.Get(m.key), objects);
    if Flatten(m.value, false) == [] {
      EmptyArray(m.value.elements);
      assert s.lists.Get(m.key) + [] == s.lists.Get(m.key);
    }
  }

  lemma EmptyArray(elements: seq<Json>)
    requires forall i :: 0 <= i < |elements| ==> elements[i].JObject?
    ensures FlattenElements(elements) == [] ==> elements == []
  {
    if elements != [] {
      assert Flatten(elements[|elements| - 1], true) != [];
    }
  }

  lemma SectionsSnoc(lists: Lists, sections: seq<Member>)
    requires sections != [] && SectionsTyped(sections)
    ensures var n := |sections| - 1; var last := sections[n]; var front := sections[..n];
      && SectionsTyped(front)
      && (AnyPathless(sections) <==>
            AnyPathless(front) || (Known(last.key) && SomePathless(HookObjects([last], last.key))))
      && Added(lists, sections)
         == if Known(last.key)
            then Added(lists, front).Set(last.key,
                   Added(lists, front).Get(last.key) + Items(HOOK_ITEM, HookObjects([last], last.key)))
            else Added(lists, front)
  {
    hide HookObjects, SomePathless, Items, IsHookArray;
    HookObjectsSnoc(sections, PRESTART);
    HookObjectsSnoc(sections, POSTSTART);
    HookObjectsSnoc(sections, POSTSTOP);
    NoItems();
  }

  lemma HookObjectsSnoc(sections: seq<Member>, name: string)
    requires sections != [] && DistinctKeys(sections)
    ensures var n := |sections| - 1; var front, last := sections[..n], sections[n];
      if last.key == name then
        HookObjects(sections, name) == HookObjects([last], name) && HookObjects(front, name) == []
      else HookObjects(sections, name) == HookObjects(front, name)
  {
    LookupLast(sections);
    hide IsHookArray;
  }

  lemma NoItems()
    ensures !SomePathless([]) && Items(HOOK_ITEM, []) == []
    ensures forall xs: seq<Hook> {:trigger xs + []} :: xs + [] == xs
  {
  }

  lemma ListFoldSnoc(start: State, sections: seq<Member>)
    requires sections != []
    ensures ListFold(start, Flatten(JObject(sections), false))
         == ListStep(ListFold(start, Flatten(JObject(sections[..|sections| - 1]), false)),
                     FlattenMember(sections[|sections| - 1]))
  {
    var n := |sections| - 1;
    var nodes, front := Flatten(JObject(sections), false), Flatten(JObject(sections[..n]), false);
    FlattenObjectSnoc(sections);
    assert nodes[..|nodes| - 1] == front;
  }

  lemma NoSections(start: State)
    ensures ListFold(start, Flatten(JObject([]), false)) == start
    ensures Added(start.lists, []) == start.lists
  {
    var nodes := Flatten(JObject([]), false);
    assert nodes == [SEPARATOR] && nodes[..0] == [];
    assert ListFold(start, nodes) == ListStep(ListFold(start, nodes[..0]), SEPARATOR);
    assert forall xs: seq<Hook> :: xs + [] == xs;
  }

  /** For every hooks object: it fails exactly if some hook of the three known lists has
      no path. The lists gain their hooks in order up to that one, and all of them if
      there is none. Nothing is left in the static variable, whatever other members the
      object has. */
  lemma {:induction false} DecodeHooks(lists: Lists, sections: seq<Member>)
    requires SectionsTyped(sections)
    ensures var end := ListFold(State(None, false, lists), Flatten(JObject(sections), false));
      && end.current.None?
      && (end.failed <==> AnyPathless(sections))
      && (end.failed <==> FirstPathlessSection(sections) < |sections|)
      && end.lists == Gained(lists, sections)
      && (!end.failed ==> end.lists == Added(lists, sections))
  {
    var start := State(None, false, lists);
    if sections == [] {
      NoSections(start);
    } else {
      hide ListFold, Flatten, Added, AnyPathless, SectionsTyped, FlattenMember, IsHookArray, Gained, HookObjects,
        SomePathless, Known, FirstPathless;
      var n := |sections| - 1;
      SectionsSnoc(lists, sections);
      DecodeHooks(lists, sections[..n]);
      ListFoldSnoc(start, sections);
      GainedSnoc(lists, sections);
      var before := ListFold(start, Flatten(JObject(sections[..n]), false));
      if Known(sections[n].key) && !before.failed {
        LastIsHookArray(sections);
        KnownStep(before, sections[n]);
      } else {
        OtherStep(before, sections[n]);
      }
    }
  }

  lemma GainedSnoc(lists: Lists, sections: seq<Member>)
    requires sections != []
    ensures var n := |sections| - 1; var front, last := sections[..n], sections[n];
      var objects := HookObjects([last], last.key);
      Gained(lists, sections)
      == if FirstPathlessSection(front) < n then Gained(lists, front)
         else if PathlessSection(last) then
           Added(lists, front).Set(last.key,
             Added(lists, front).Get(last.key) + Items(HOOK_ITEM, objects[..FirstPathless(objects)]))
         else Added(lists, sections)
  {
    hide Added, PathlessSection, FirstPathless, HookObjects, Items, Known, SomePathless;
    var n := |sections| - 1;
    var front := sections[..n];
    var k := FirstPathlessSection(front);
    assert sections[..k] == front[..k];
    assert sections[..n] == front && sections[..n + 1] == sections;
  }

  lemma LastIsHookArray(sections: seq<Member>)
    requires SectionsTyped(sections) && sections != [] && Known(sections[|sections| - 1].key)
    ensures IsHookArray(sections[|sections| - 1].value)
  {
  }

  lemma OtherStep(s: State, m: Member)
    requires s.failed || !Known(m.key)
    ensures ListStep(s, FlattenMember(m)) == s
  {
  }
}
