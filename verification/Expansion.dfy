/** The main results on the expansion of a command line: the ten replacements
    give the simultaneous substitution exactly when nothing is misread. */
module Expansion {
  import opened CLib
  import opened CmdLine
  import opened Templates

  // ----- tag names -----

  lemma NamesDiffer(i: nat, j: nat)
    requires i < TAGS && j < TAGS && i != j
    ensures TagName(i) != TagName(j)
  {
  }

  /** No tag name is the end of another one. */
  lemma NoNameEndsInName(i: nat, j: nat, head: string)
    requires i < TAGS && j < TAGS && head != ""
    ensures TagName(i) != head + TagName(j)
  {
    EndsDiffer(i, j);
    hide TagName;
    var b := TagName(j);
    FromTheEnd(head, b, 1);
    FromTheEnd(head, b, 2);
    if |b| >= 9 {
      FromTheEnd(head, b, 9);
    }
  }

  lemma FromTheEnd(head: string, b: string, n: nat)
    requires 1 <= n <= |b|
    ensures (head + b)[|head + b| - n] == b[|b| - n]
  {
  }

  lemma EndsDiffer(i: nat, j: nat)
    requires i < TAGS && j < TAGS
    ensures var a, b := TagName(i), TagName(j);
      && |a| >= 4 && |b| >= 4
      && (i == j || |a| <= |b| || a[|a| - 1] != b[|b| - 1] || a[|a| - 2] != b[|b| - 2]
          || (|b| >= 9 && a[|a| - 9] != b[|b| - 9]))
  {
  }

  // ----- a replacement that reads a real tag -----

  lemma PiecesTail(t: Template, x: string)
    requires WellFormed(t) && Plain(x)
    ensures WellFormed(Template([x] + t.lits[1..], t.tags))
    ensures Pieces(Template([x] + t.lits[1..], t.tags)) == [x] + Pieces(t)[1..]
  {
    hide TagName, Pieces;
    var u := Template([x] + t.lits[1..], t.tags);
    if t.tags == [] {
      NoPieces(t);
      NoPieces(u);
    } else {
      assert u.lits[1..] == t.lits[1..];
      MorePieces(t);
      MorePieces(u);
    }
  }

  lemma NoPieces(t: Template)
    requires WellFormed(t) && t.tags == []
    ensures Pieces(t) == [t.lits[0]] && Pieces(t)[1..] == []
  {
  }

  lemma MorePieces(t: Template)
    requires WellFormed(t) && t.tags != []
    ensures Pieces(t) == [t.lits[0]] + ([TagName(t.tags[0])] + Pieces(Tail(t)))
    ensures Pieces(t)[1..] == [TagName(t.tags[0])] + Pieces(Tail(t))
  {
    hide TagName;
  }

  lemma {:induction false} MergeFill(t: Template, k: nat, value: string)
    requires WellFormed(t) && k < TAGS && Plain(value) && !Impostor(t, k)
    ensures Merge(Pieces(t), TagName(k), value) == Pieces(Fill(t, k, value))
    decreases |t.tags|
  {
    hide TagName;
    if t.tags != [] {
      if t.tags[0] == k {
        FillFirst(t, k, value);
      } else {
        NamesDiffer(t.tags[0], k);
        MergeFill(Tail(t), k, value);
        FillRest(t, k, value);
        MergeRest(t, TagName(k), value);
      }
    }
  }

  lemma FillFirst(t: Template, k: nat, value: string)
    requires WellFormed(t) && k < TAGS && Plain(value) && t.tags != [] && t.tags[0] == k
    ensures Merge(Pieces(t), TagName(k), value) == Pieces(Fill(t, k, value))
  {
    hide TagName;
    var p, rest := Pieces(t), Pieces(Tail(t));
    assert p[3..] == rest[1..];
    PiecesTail(Tail(t), t.lits[0] + value + t.lits[1]);
    assert [t.lits[0] + value + t.lits[1]] + Tail(t).lits[1..] == Fill(t, k, value).lits;
  }

  lemma FillRest(t: Template, k: nat, value: string)
    requires WellFormed(t) && k < TAGS && Plain(value) && t.tags != [] && t.tags[0] != k
    ensures Pieces(Fill(t, k, value)) == [t.lits[0], TagName(t.tags[0])] + Pieces(Fill(Tail(t), k, value))
  {
    hide TagName;
    var u := Fill(t, k, value);
    assert Tail(u) == Fill(Tail(t), k, value);
  }

  /** A merge past the first tag, when neither it nor the literal after it is the name. */
  lemma MergeRest(t: Template, name: string, value: string)
    requires WellFormed(t) && t.tags != [] && TagName(t.tags[0]) != name
    requires |t.tags| >= 2 ==> t.lits[1] != name
    ensures Merge(Pieces(t), name, value) == [t.lits[0], TagName(t.tags[0])] + Merge(Pieces(Tail(t)), name, value)
  {
    hide TagName;
    var p, first, rest := Pieces(t), TagName(t.tags[0]), Pieces(Tail(t));
    assert p[1..] == [first] + rest && ([first] + rest)[1..] == rest;
    assert rest[0] == t.lits[1];
    hide Pieces;
    assert Merge(p, name, value) == [t.lits[0]] + Merge([first] + rest, name, value);
    assert Merge([first] + rest, name, value) == [first] + Merge(rest, name, value);
  }

  lemma {:induction false} FillSubst(t: Template, k: nat, values: seq<string>)
    requires WellFormed(t) && PlainValues(values) && k < TAGS
    ensures Subst(Fill(t, k, values[k]), values) == Subst(t, values)
    decreases |t.tags|
  {
    if t.tags != [] {
      var u := Fill(t, k, values[k]);
      if t.tags[0] == k {
        var head := t.lits[0] + values[k];
        if |t.tags| > 1 {
          assert Tail(u) == Tail(Tail(t));
          var rest := Subst(Tail(Tail(t)), values);
          assert Subst(Tail(t), values) == t.lits[1] + values[t.tags[1]] + rest;
          assert head + (t.lits[1] + values[t.tags[1]] + rest) == (head + t.lits[1]) + values[t.tags[1]] + rest;
        }
      } else {
        FillSubst(Tail(t), k, values);
        assert Tail(u) == Fill(Tail(t), k, values[k]);
      }
    }
  }

  function DropFirst(tags: seq<nat>, k: nat): seq<nat> {
    if tags == [] then [] else if tags[0] == k then tags[1..] else [tags[0]] + DropFirst(tags[1..], k)
  }

  lemma {:induction false} FillTags(t: Template, k: nat, value: string)
    requires WellFormed(t) && Plain(value)
    ensures Fill(t, k, value).tags == DropFirst(t.tags, k)
    decreases |t.tags|
  {
    if t.tags != [] && t.tags[0] != k {
      FillTags(Tail(t), k, value);
    }
  }

  lemma {:induction false} DropFirstIn(tags: seq<nat>, k: nat)
    ensures forall x :: x in DropFirst(tags, k) ==> x in tags
    ensures forall x :: x in tags && x != k ==> x in DropFirst(tags, k)
  {
    if tags != [] {
      DropFirstIn(tags[1..], k);
      assert tags == [tags[0]] + tags[1..];
    }
  }

  /** Dropping the first `k` leaves distinct tags without it exactly from distinct tags. */
  lemma {:induction false} DropDistinct(tags: seq<nat>, k: nat)
    ensures Distinct(tags) <==> Distinct(DropFirst(tags, k)) && k !in DropFirst(tags, k)
  {
    if tags != [] {
      DistinctCons(tags[0], tags[1..]);
      assert tags == [tags[0]] + tags[1..];
      if tags[0] != k {
        DropDistinct(tags[1..], k);
        DropFirstIn(tags[1..], k);
        DistinctCons(tags[0], DropFirst(tags[1..], k));
      }
      hide Distinct;
    }
  }

  lemma DistinctCons(x: nat, tags: seq<nat>)
    ensures Distinct([x] + tags) <==> Distinct(tags) && x !in tags
  {
    var all := [x] + tags;
    assert forall i :: 0 <= i < |tags| ==> tags[i] == all[i + 1];
    if Distinct(all) {
      forall i, j | 0 <= i < j < |tags| ensures tags[i] != tags[j] {
        assert all[i + 1] != all[j + 1];
      }
      forall i | 0 <= i < |tags| ensures tags[i] != x {
        assert all[0] != all[i + 1];
      }
    }
  }

  lemma DistinctNothing(tags: seq<nat>)
    ensures !Distinct(tags) ==> |tags| >= 2
  {
  }

  function Given(values: seq<string>): (r: seq<Option<string>>)
    ensures |r| == |values| && forall i :: 0 <= i < |r| ==> r[i] == Some(values[i])
  {
    seq(|values|, i requires 0 <= i < |values| => Some(values[i]))
  }

  /** One stage on a template that is read as meant. */
  lemma StageFills(t: Template, values: seq<string>, k: nat)
    requires WellFormed(t) && PlainValues(values) && k < TAGS && !Impostor(t, k)
    ensures Replace(Render(t), TagText(k), Some(values[k])) == Render(Fill(t, k, values[k]))
  {
    hide Replace, Join, Merge, Pieces, Fill, Render, Impostor, TagName;
    RenderPieces(t);
    RenderPieces(Fill(t, k, values[k]));
    TagNamePlain(k);
    MergeFill(t, k, values[k]);
    ReplacePieces(Pieces(t), TagName(k), values[k]);
  }

  lemma {:induction false} ReadAsMeant(t: Template, values: seq<string>, k: nat)
    requires WellFormed(t) && PlainValues(values) && k <= TAGS
    requires Distinct(t.tags) && (forall i :: 0 <= i < |t.tags| ==> t.tags[i] >= k) && !Misread(t, values, k)
    ensures ExpandFrom(Render(t), Given(values), k) == Subst(t, values)
    decreases TAGS - k
  {
    hide Replace, Fill, Impostor, Distinct, Subst, Render, TagName;
    if k == TAGS {
      NoTags(t, values);
    } else {
      StageFills(t, values, k);
      FillTags(t, k, values[k]);
      DropDistinct(t.tags, k);
      DropAtLeast(t.tags, k);
      ReadAsMeant(Fill(t, k, values[k]), values, k + 1);
      FillSubst(t, k, values);
    }
  }

  lemma NoTags(t: Template, values: seq<string>)
    requires WellFormed(t) && PlainValues(values) && (t.tags != [] ==> t.tags[0] >= TAGS)
    ensures Render(t) == Subst(t, values)
  {
    hide TagName;
  }

  lemma DropAtLeast(tags: seq<nat>, k: nat)
    requires (forall i :: 0 <= i < |tags| ==> tags[i] >= k) && Distinct(tags)
    ensures forall i :: 0 <= i < |DropFirst(tags, k)| ==> DropFirst(tags, k)[i] >= k + 1
  {
    hide Distinct;
    DropDistinct(tags, k);
    DropFirstIn(tags, k);
    hide DropFirst;
    forall i | 0 <= i < |DropFirst(tags, k)| ensures DropFirst(tags, k)[i] >= k + 1 {
      assert DropFirst(tags, k)[i] in DropFirst(tags, k);
    }
  }

  // ----- a replacement that reads something else -----

  predicate EndsIn(s: string, j: nat)
    requires j < TAGS
  {
    |TagName(j)| <= |s| && s[|s| - |TagName(j)|..] == TagName(j)
  }

  ghost predicate EndsInTag(s: string) { exists j :: 0 <= j < TAGS && EndsIn(s, j) }

  predicate Live(s: string, k: nat) { exists j :: k <= j < TAGS && s == TagName(j) }

  /** What lies between two '@'s where a tag belongs, and no later stage reads as one. */
  ghost predicate StuckPiece(s: string, k: nat) { EndsInTag(s) && !Live(s, k) }

  /** Every second piece stands for a tag; `here` says whether the first one does. */
  ghost predicate TagsAt(pieces: seq<string>, here: bool) {
    pieces == [] || ((here ==> EndsInTag(pieces[0])) && TagsAt(pieces[1..], !here))
  }

  ghost predicate StuckAt(pieces: seq<string>, k: nat, here: bool) {
    pieces != [] && ((here && StuckPiece(pieces[0], k)) || StuckAt(pieces[1..], k, !here))
  }

  lemma LongerIsStuck(head: string, s: string, k: nat)
    requires head != "" && EndsInTag(s)
    ensures StuckPiece(head + s, k)
  {
    var j :| 0 <= j < TAGS && EndsIn(s, j);
    hide TagName;
    var n, all := |TagName(j)|, head + s;
    assert all[|all| - n..] == s[|s| - n..];
    assert EndsIn(all, j);
    var front := all[..|all| - n];
    assert all == front + TagName(j);
    forall i | k <= i < TAGS ensures all != TagName(i) {
      NoNameEndsInName(i, j, front);
    }
  }

  lemma EndsInTagNonEmpty(s: string)
    ensures EndsInTag(s) ==> s != ""
  {
    if EndsInTag(s) {
      var j :| 0 <= j < TAGS && EndsIn(s, j);
      TagNamePlain(j);
    }
  }

  lemma NameEndsInTag(j: nat)
    requires j < TAGS
    ensures EndsInTag(TagName(j))
  {
    hide TagName;
    assert EndsIn(TagName(j), j);
  }

  lemma {:induction false} TagsKeep(pieces: seq<string>, name: string, value: string, here: bool)
    requires TagsAt(pieces, here)
    ensures TagsAt(Merge(pieces, name, value), here)
  {
    hide EndsInTag;
    if |pieces| >= 3 {
      if pieces[1] == name {
        assert pieces[1..][1..] == pieces[2..] && pieces[2..][1..] == pieces[3..];
        assert TagsAt(pieces[1..], !here) && TagsAt(pieces[2..], here) && TagsAt(pieces[3..], !here);
        if here {
          MergedEnd(pieces[0] + value, pieces[2]);
        }
        assert ([pieces[0] + value + pieces[2]] + pieces[3..])[1..] == pieces[3..];
      } else {
        TagsKeep(pieces[1..], name, value, !here);
        assert ([pieces[0]] + Merge(pieces[1..], name, value))[1..] == Merge(pieces[1..], name, value);
      }
    }
  }

  lemma MergedEnd(head: string, s: string)
    requires EndsInTag(s)
    ensures EndsInTag(head + s)
  {
    if head == "" {
      assert head + s == s;
    } else {
      LongerIsStuck(head, s, 0);
    }
  }

  lemma {:induction false} StuckKeeps(pieces: seq<string>, k: nat, value: string, here: bool)
    requires k < TAGS && TagsAt(pieces, here) && StuckAt(pieces, k, here)
    ensures StuckAt(Merge(pieces, TagName(k), value), k, here)
  {
    hide EndsInTag, TagName;
    if |pieces| >= 3 {
      if pieces[1] == TagName(k) {
        assert pieces[1..][1..] == pieces[2..] && pieces[2..][1..] == pieces[3..];
        assert ([pieces[0] + value + pieces[2]] + pieces[3..])[1..] == pieces[3..];
        if here {
          assert TagsAt(pieces[1..], false) && TagsAt(pieces[2..], true);
          EndsInTagNonEmpty(pieces[0]);
          LongerIsStuck(pieces[0] + value, pieces[2], k);
        } else {
          assert Live(pieces[1], k);
          assert StuckAt(pieces[2..], k, false) && StuckAt(pieces[3..], k, true);
        }
      } else {
        assert ([pieces[0]] + Merge(pieces[1..], TagName(k), value))[1..] == Merge(pieces[1..], TagName(k), value);
        if StuckAt(pieces[1..], k, !here) {
          StuckKeeps(pieces[1..], k, value, !here);
        }
      }
    }
  }

  lemma {:induction false} StuckLater(pieces: seq<string>, k: nat, here: bool)
    requires StuckAt(pieces, k, here)
    ensures StuckAt(pieces, k + 1, here)
  {
    if StuckAt(pieces[1..], k, !here) {
      StuckLater(pieces[1..], k, !here);
    }
    hide EndsInTag, TagName;
  }

  lemma {:induction false} PlainKeeps(pieces: seq<string>, name: string, value: string)
    requires AllPlain(pieces) && Plain(value)
    ensures AllPlain(Merge(pieces, name, value))
  {
    if |pieces| >= 3 && pieces[1] != name {
      PlainKeeps(pieces[1..], name, value);
    }
  }

  /** A stuck piece stays until the end, and with it the '@'s around it. */
  lemma {:induction false} StuckForever(pieces: seq<string>, values: seq<string>, k: nat)
    requires PlainValues(values) && k <= TAGS && AllPlain(pieces)
    requires TagsAt(pieces, false) && StuckAt(pieces, k, false)
    ensures !Plain(ExpandFrom(Join(pieces, '@'), Given(values), k))
    decreases TAGS - k
  {
    if k == TAGS {
      hide Plain;
      JoinNotPlain(pieces);
    } else {
      hide Replace, Merge, Join, TagsAt, StuckAt, TagName, AllPlain, Plain;
      TagNamePlain(k);
      var merged := Merge(pieces, TagName(k), values[k]);
      assert Plain(values[k]);
      PlainKeeps(pieces, TagName(k), values[k]);
      TagsKeep(pieces, TagName(k), values[k], false);
      StuckKeeps(pieces, k, values[k], false);
      StuckLater(merged, k, false);
      StuckForever(merged, values, k + 1);
      StuckNonEmpty(pieces, k);
      ReplacePieces(pieces, TagName(k), values[k]);
    }
  }

  lemma StuckNonEmpty(pieces: seq<string>, k: nat)
    ensures StuckAt(pieces, k, false) ==> |pieces| >= 2
  {
    if |pieces| == 1 {
      assert !StuckAt(pieces[1..], k, true);
    }
  }

  lemma JoinNotPlain(pieces: seq<string>)
    requires exists k :: StuckAt(pieces, k, false)
    ensures !Plain(Join(pieces, '@'))
  {
    var s := Join(pieces, '@');
    assert s == pieces[0] + "@" + Join(pieces[1..], '@');
    assert s[|pieces[0]|] == '@';
  }

  lemma {:induction false} PiecesTags(t: Template)
    requires WellFormed(t)
    ensures TagsAt(Pieces(t), false)
    decreases |t.tags|
  {
    hide EndsInTag, TagName;
    var p := Pieces(t);
    if t.tags != [] {
      PiecesTags(Tail(t));
      NameEndsInTag(t.tags[0]);
      assert p[1..] == [TagName(t.tags[0])] + Pieces(Tail(t)) && p[1..][1..] == Pieces(Tail(t));
    }
  }

  /** An impostor makes two neighbouring tags into one stuck piece. */
  lemma {:induction false} ImpostorSticks(t: Template, k: nat, value: string)
    requires WellFormed(t) && k < TAGS && Impostor(t, k)
    ensures StuckAt(Merge(Pieces(t), TagName(k), value), k, false)
    decreases |t.tags|
  {
    hide EndsInTag, TagName, StuckPiece;
    var p, rest := Pieces(t), Pieces(Tail(t));
    var name, first := TagName(k), TagName(t.tags[0]);
    NamesDiffer(t.tags[0], k);
    assert p[1..] == [first] + rest && p[1..][1..] == rest;
    assert rest[1] == TagName(t.tags[1]);
    assert Merge(p, name, value) == [t.lits[0]] + Merge(p[1..], name, value);
    if t.lits[1] == name {
      var merged := [first + value + rest[1]] + p[1..][3..];
      assert Merge(p[1..], name, value) == merged;
      TagNamePlain(t.tags[0]);
      NameEndsInTag(t.tags[1]);
      LongerIsStuck(first + value, rest[1], k);
      assert StuckAt(merged, k, true);
      assert ([t.lits[0]] + merged)[1..] == merged;
    } else {
      ImpostorSticks(Tail(t), k, value);
      MergeRest(t, name, value);
      var merged := Merge(rest, name, value);
      assert ([first] + merged)[1..] == merged;
      assert ([t.lits[0]] + ([first] + merged))[1..] == [first] + merged;
    }
  }

  /** A tag whose turn is over is stuck. */
  lemma {:induction false} LateTagSticks(t: Template, k: nat, at: nat)
    requires WellFormed(t) && at < |t.tags| && t.tags[at] < k
    ensures StuckAt(Pieces(t), k, false)
    decreases |t.tags|
  {
    var p, rest := Pieces(t), Pieces(Tail(t));
    hide EndsInTag, TagName;
    assert p[1..] == [TagName(t.tags[0])] + rest && p[1..][1..] == rest;
    if at == 0 {
      NameEndsInTag(t.tags[0]);
      forall j | k <= j < TAGS ensures TagName(t.tags[0]) != TagName(j) {
        NamesDiffer(t.tags[0], j);
      }
    } else {
      LateTagSticks(Tail(t), k, at - 1);
    }
  }

  lemma {:induction false} LeavesMarks(t: Template, values: seq<string>, k: nat)
    requires WellFormed(t) && PlainValues(values) && k <= TAGS
    requires Misread(t, values, k) || !Distinct(t.tags) || exists i :: 0 <= i < |t.tags| && t.tags[i] < k
    ensures !Plain(ExpandFrom(Render(t), Given(values), k))
    decreases TAGS - k
  {
    hide Replace, Join, Merge, Pieces, Fill, Render, Impostor, TagName, TagsAt, StuckAt, Plain, AllPlain;
    RenderPieces(t);
    PiecesTags(t);
    if at :| 0 <= at < |t.tags| && t.tags[at] < k {
      LateTagSticks(t, k, at);
      StuckForever(Pieces(t), values, k);
    } else if k == TAGS {
      DistinctNothing(t.tags);
    } else if Impostor(t, k) {
      var merged := Merge(Pieces(t), TagName(k), values[k]);
      TagNamePlain(k);
      ImpostorSticks(t, k, values[k]);
      TagsKeep(Pieces(t), TagName(k), values[k], false);
      assert Plain(values[k]);
      PlainKeeps(Pieces(t), TagName(k), values[k]);
      StuckLater(merged, k, false);
      StuckForever(merged, values, k + 1);
      ReplacePieces(Pieces(t), TagName(k), values[k]);
    } else {
      StageFills(t, values, k);
      FillTags(t, k, values[k]);
      DropDistinct(t.tags, k);
      var u := Fill(t, k, values[k]);
      if k in u.tags {
        var i :| 0 <= i < |u.tags| && u.tags[i] == k;
        assert u.tags[i] < k + 1;
      }
      LeavesMarks(u, values, k + 1);
    }
  }

  lemma {:induction false} SubstPlain(t: Template, values: seq<string>)
    requires WellFormed(t) && PlainValues(values)
    ensures Plain(Subst(t, values))
    decreases |t.tags|
  {
    if t.tags != [] {
      SubstPlain(Tail(t), values);
    }
  }

  // ----- the main results -----

  /** Replacing the tags one after another gives every tag its value at once, and
      leaves no '@', if and only if no tag is repeated and nothing is misread. */
  lemma ExpandIsSubst(t: Template, values: seq<string>)
    requires WellFormed(t) && PlainValues(values)
    ensures Expand(Render(t), Given(values)) == Subst(t, values) <==> Distinct(t.tags) && !Misread(t, values, 0)
    ensures Plain(Expand(Render(t), Given(values))) <==> Distinct(t.tags) && !Misread(t, values, 0)
  {
    hide Render, Subst, Misread, ExpandFrom, Plain, Distinct;
    SubstPlain(t, values);
    if Distinct(t.tags) && !Misread(t, values, 0) {
      ReadAsMeant(t, values, 0);
    } else {
      LeavesMarks(t, values, 0);
    }
  }

  /** Text no tag name can contain, as every path, UUID, size and device has. */
  predicate Foreign(s: string) { exists i :: 0 <= i < |s| && !IsNameChar(s[i]) }

  ghost predicate IsName(s: string) { exists j :: 0 <= j < TAGS && s == TagName(j) }

  ghost predicate NoBareNames(t: Template)
    requires WellFormed(t)
  {
    forall i :: 1 <= i < |t.tags| ==> !IsName(t.lits[i])
  }

  lemma ForeignIsNoName(a: string, s: string, b: string)
    requires Foreign(s)
    ensures !IsName(a + s + b)
  {
    hide TagName;
    var i :| 0 <= i < |s| && !IsNameChar(s[i]);
    assert (a + s + b)[|a| + i] == s[i];
    assert Foreign(a + s + b);
    forall j | 0 <= j < TAGS ensures a + s + b != TagName(j) {
      NameChars(j);
    }
  }

  lemma {:induction false} FillKeepsNames(t: Template, k: nat, value: string)
    requires WellFormed(t) && k < TAGS && Plain(value) && Foreign(value) && NoBareNames(t)
    ensures NoBareNames(Fill(t, k, value)) && !Impostor(t, k)
    ensures t.tags != [] && Fill(t, k, value).tags != [] && t.tags[0] != k ==> Fill(t, k, value).lits[0] == t.lits[0]
    ensures |t.tags| > 1 && !IsName(t.lits[0]) ==> !IsName(Fill(t, k, value).lits[0])
    ensures t.tags != [] && t.tags[0] == k ==> !IsName(Fill(t, k, value).lits[0])
    decreases |t.tags|
  {
    hide IsName, Foreign;
    if t.tags != [] {
      if t.tags[0] == k {
        ForeignIsNoName(t.lits[0], value, t.lits[1]);
      } else {
        assert NoBareNames(Tail(t));
        FillKeepsNames(Tail(t), k, value);
        if |t.tags| >= 2 {
          assert !IsName(t.lits[1]);
          assert IsName(TagName(k)) by { NameIsName(k); }
        }
      }
    }
  }

  lemma NameIsName(k: nat)
    requires k < TAGS
    ensures IsName(TagName(k))
  {
    hide TagName;
  }

  lemma {:induction false} NothingMisread(t: Template, values: seq<string>, k: nat)
    requires WellFormed(t) && PlainValues(values) && k <= TAGS && NoBareNames(t)
    requires forall i :: k <= i < TAGS ==> Foreign(values[i])
    ensures !Misread(t, values, k)
    decreases TAGS - k
  {
    if k < TAGS {
      FillKeepsNames(t, k, values[k]);
      NothingMisread(Fill(t, k, values[k]), values, k + 1);
    }
  }

  /** With literals that are no bare tag names, tags used once each, and values that
      hold a character foreign to tag names, the expansion is the substitution. */
  lemma ForeignValuesExpand(t: Template, values: seq<string>)
    requires WellFormed(t) && PlainValues(values) && NoBareNames(t) && Distinct(t.tags)
    requires forall i :: 0 <= i < TAGS ==> Foreign(values[i])
    ensures Expand(Render(t), Given(values)) == Subst(t, values)
  {
    hide Render, Subst, Misread, ExpandFrom, Plain, Distinct, NoBareNames, Foreign;
    NothingMisread(t, values, 0);
    ExpandIsSubst(t, values);
  }

  lemma {:induction false} FillNothing(t: Template, k: nat, value: string)
    requires WellFormed(t) && Plain(value) && k !in t.tags
    ensures Fill(t, k, value) == t
    decreases |t.tags|
  {
    if t.tags != [] {
      FillNothing(Tail(t), k, value);
    }
  }
}
