/** The ten replacements against simultaneous substitution: for a command-line
    argument made of literals and tags, exactly when the two agree. */
module Templates {
  import opened CLib
  import opened CmdLine

  /** An argument: the literals, and the tags between them. */
  datatype Template = Template(lits: seq<string>, tags: seq<nat>)

  predicate Plain(s: string) { forall i :: 0 <= i < |s| ==> s[i] != '@' }

  predicate WellFormed(t: Template) {
    && |t.lits| == |t.tags| + 1
    && (forall i :: 0 <= i < |t.lits| ==> Plain(t.lits[i]))
    && forall i :: 0 <= i < |t.tags| ==> t.tags[i] < TAGS
  }

  predicate PlainValues(values: seq<string>) {
    |values| == TAGS && forall i :: 0 <= i < TAGS ==> Plain(values[i])
  }

  function Tail(t: Template): (r: Template)
    requires WellFormed(t) && t.tags != []
    ensures WellFormed(r)
  {
    Template(t.lits[1..], t.tags[1..])
  }

  function Render(t: Template): string
    requires WellFormed(t)
    decreases |t.tags|
  {
    if t.tags == [] then t.lits[0] else t.lits[0] + TagText(t.tags[0]) + Render(Tail(t))
  }

  /** Every tag replaced by its value at once. */
  function Subst(t: Template, values: seq<string>): string
    requires WellFormed(t) && PlainValues(values)
    decreases |t.tags|
  {
    if t.tags == [] then t.lits[0] else t.lits[0] + values[t.tags[0]] + Subst(Tail(t), values)
  }

  predicate Distinct(tags: seq<nat>) { forall i, j :: 0 <= i < j < |tags| ==> tags[i] != tags[j] }

  // ----- the condition -----

  /** The text between two neighbouring tags is the bare name of tag `k`, and no
      real tag `k` comes before it: with the '@'s of its neighbours it looks like one. */
  predicate Impostor(t: Template, k: nat)
    requires WellFormed(t) && k < TAGS
    decreases |t.tags|
  {
    |t.tags| >= 2 && t.tags[0] != k && (t.lits[1] == TagName(k) || Impostor(Tail(t), k))
  }

  /** The template after the first tag `k` has become its value. */
  function Fill(t: Template, k: nat, value: string): (r: Template)
    requires WellFormed(t) && Plain(value)
    ensures WellFormed(r)
    decreases |t.tags|
  {
    if t.tags == [] then t
    else if t.tags[0] == k then Template([t.lits[0] + value + t.lits[1]] + t.lits[2..], t.tags[1..])
    else var rest := Fill(Tail(t), k, value); Template([t.lits[0]] + rest.lits, [t.tags[0]] + rest.tags)
  }

  /** Filling the tags in the code's order meets an impostor on the way. */
  predicate Misread(t: Template, values: seq<string>, k: nat)
    requires WellFormed(t) && PlainValues(values) && k <= TAGS
    decreases TAGS - k
  {
    k < TAGS && (Impostor(t, k) || Misread(Fill(t, k, values[k]), values, k + 1))
  }

  // ----- a string as the list of its pieces between '@'s -----

  function Pieces(t: Template): (r: seq<string>)
    requires WellFormed(t)
    ensures |r| == 2 * |t.tags| + 1 && r[0] == t.lits[0]
    decreases |t.tags|
  {
    if t.tags == [] then [t.lits[0]] else [t.lits[0], TagName(t.tags[0])] + Pieces(Tail(t))
  }

  /** The first inner piece that is `name` goes, and its neighbours close up. */
  function Merge(pieces: seq<string>, name: string, value: string): seq<string> {
    if |pieces| < 3 then pieces
    else if pieces[1] == name then [pieces[0] + value + pieces[2]] + pieces[3..]
    else [pieces[0]] + Merge(pieces[1..], name, value)
  }

  predicate AllPlain(pieces: seq<string>) { forall i :: 0 <= i < |pieces| ==> Plain(pieces[i]) }

  lemma {:induction false} RenderPieces(t: Template)
    requires WellFormed(t)
    ensures Render(t) == Join(Pieces(t), '@')
    ensures AllPlain(Pieces(t))
    decreases |t.tags|
  {
    hide TagName;
    if t.tags != [] {
      RenderPieces(Tail(t));
      TagNamePlain(t.tags[0]);
      var rest := Pieces(Tail(t));
      JoinTwo(t.lits[0], TagName(t.tags[0]), rest);
    }
  }

  lemma JoinTwo(a: string, b: string, rest: seq<string>)
    requires rest != []
    ensures Join([a, b] + rest, '@') == a + ("@" + b + "@") + Join(rest, '@')
  {
    assert ([a, b] + rest)[1..] == [b] + rest;
    assert ([b] + rest)[1..] == rest;
  }

  predicate IsNameChar(c: char) { 'A' <= c <= 'Z' || c == '_' }

  lemma NameChars(k: nat)
    requires k < TAGS
    ensures TagName(k) != "" && forall i :: 0 <= i < |TagName(k)| ==> IsNameChar(TagName(k)[i])
  {
  }

  lemma TagNamePlain(k: nat)
    requires k < TAGS
    ensures Plain(TagName(k)) && TagName(k) != ""
  {
    hide TagName;
    NameChars(k);
  }

  /** A match further on in a text is a match in its tail. */
  lemma MatchShift(head: string, tail: string, needle: string, i: int)
    ensures i >= |head| ==> (MatchAt(head + tail, needle, i) <==> MatchAt(tail, needle, i - |head|))
  {
    if |head| <= i <= |head| + |tail| - |needle| {
      assert (head + tail)[i..i + |needle|] == tail[i - |head|..i - |head| + |needle|];
    }
  }

  lemma MatchChar(s: string, needle: string, i: nat, k: nat)
    requires MatchAt(s, needle, i) && k < |needle|
    ensures s[i + k] == needle[k]
  {
    assert s[i..i + |needle|][k] == s[i + k];
  }

  lemma NoMatchBefore(head: string, tail: string, needle: string, i: int)
    requires Plain(head) && needle != "" && needle[0] == '@' && 0 <= i < |head|
    ensures !MatchAt(head + tail, needle, i)
  {
    if MatchAt(head + tail, needle, i) {
      MatchChar(head + tail, needle, i, 0);
    }
  }

  lemma FindShift(head: string, tail: string, needle: string)
    requires forall i :: 0 <= i < |head| ==> !MatchAt(head + tail, needle, i)
    ensures Find(head + tail, needle)
         == match Find(tail, needle) case None => None case Some(q) => Some(|head| + q)
  {
    hide MatchAt;
    var s := head + tail;
    forall i ensures i >= |head| ==> (MatchAt(s, needle, i) <==> MatchAt(tail, needle, i - |head|)) {
      MatchShift(head, tail, needle, i);
    }
    var p, q := Find(s, needle), Find(tail, needle);
    if p.Some? {
      assert MatchAt(tail, needle, p.value - |head|);
    }
    if q.Some? {
      assert MatchAt(s, needle, |head| + q.value);
    }
  }

  /** Replacing in a text whose head holds no match is replacing in the rest. */
  lemma ReplaceShift(head: string, tail: string, needle: string, value: string)
    requires needle != "" && forall i :: 0 <= i < |head| ==> !MatchAt(head + tail, needle, i)
    ensures Replace(head + tail, needle, Some(value)) == head + Replace(tail, needle, Some(value))
  {
    hide Find, MatchAt, Replace;
    FindShift(head, tail, needle);
    ReplaceFound(head + tail, needle, value);
    ReplaceFound(tail, needle, value);
    if Find(tail, needle).Some? {
      CutShift(head, tail, Find(tail, needle).value, |needle|, value);
    }
  }

  lemma ReplaceFound(s: string, needle: string, value: string)
    requires needle != ""
    ensures var p := Find(s, needle);
      Replace(s, needle, Some(value)) == if p.None? then s else s[..p.value] + value + s[p.value + |needle|..]
  {
    hide Find;
  }

  lemma CutShift(head: string, tail: string, at: nat, n: nat, value: string)
    requires at + n <= |tail|
    ensures (head + tail)[..|head| + at] + value + (head + tail)[|head| + at + n..]
         == head + (tail[..at] + value + tail[at + n..])
  {
    assert (head + tail)[..|head| + at] == head + tail[..at];
    assert (head + tail)[|head| + at + n..] == tail[at + n..];
  }

  lemma {:induction false} ReplacePieces(pieces: seq<string>, name: string, value: string)
    requires pieces != [] && AllPlain(pieces) && Plain(name)
    ensures Replace(Join(pieces, '@'), "@" + name + "@", Some(value)) == Join(Merge(pieces, name, value), '@')
  {
    hide Replace;
    var needle := "@" + name + "@";
    if |pieces| < 3 {
      FewPieces(pieces, name);
      NoReplace(Join(pieces, '@'), needle, value);
    } else {
      var rest := Join(pieces[1..], '@');
      assert Join(pieces, '@') == pieces[0] + ("@" + rest);
      assert pieces[1..][1..] == pieces[2..];
      assert rest == pieces[1] + ("@" + Join(pieces[2..], '@'));
      if pieces[1] == name {
        ReplaceHere(pieces[0], needle, Join(pieces[2..], '@'), value);
        assert pieces[0] + needle + Join(pieces[2..], '@') == Join(pieces, '@');
        JoinFirst(pieces[0] + value, pieces[2..]);
      } else {
        ReplacePieces(pieces[1..], name, value);
        NotHere(pieces[1], Join(pieces[2..], '@'), name);
        ReplaceTail(pieces[0], rest, needle, value);
        MergeKeeps(pieces[1..], name, value);
        assert Merge(pieces, name, value)[1..] == Merge(pieces[1..], name, value);
      }
    }
  }

  lemma MergeKeeps(pieces: seq<string>, name: string, value: string)
    ensures pieces != [] ==> Merge(pieces, name, value) != []
  {
  }

  lemma NoReplace(s: string, needle: string, value: string)
    requires forall i :: !MatchAt(s, needle, i)
    ensures Replace(s, needle, Some(value)) == s
  {
  }

  lemma ReplaceTail(head: string, rest: string, needle: string, value: string)
    requires Plain(head) && needle != "" && needle[0] == '@' && !MatchAt("@" + rest, needle, 0)
    ensures Replace(head + ("@" + rest), needle, Some(value)) == head + ("@" + Replace(rest, needle, Some(value)))
  {
    hide Replace;
    forall i | 0 <= i < |head| ensures !MatchAt(head + ("@" + rest), needle, i) {
      NoMatchBefore(head, "@" + rest, needle, i);
    }
    ReplaceShift(head, "@" + rest, needle, value);
    ReplaceShift("@", rest, needle, value);
  }

  lemma NotHere(piece: string, rest: string, name: string)
    requires Plain(piece) && Plain(name) && piece != name
    ensures !MatchAt("@" + (piece + ("@" + rest)), "@" + name + "@", 0)
  {
    var s, needle := "@" + (piece + ("@" + rest)), "@" + name + "@";
    if MatchAt(s, needle, 0) {
      if |piece| < |name| {
        MatchChar(s, needle, 0, |piece| + 1);
      } else if |name| < |piece| {
        MatchChar(s, needle, 0, |name| + 1);
      } else {
        var i :| 0 <= i < |piece| && piece[i] != name[i];
        MatchChar(s, needle, 0, i + 1);
      }
    }
  }

  lemma ReplaceHere(head: string, needle: string, rest: string, value: string)
    requires Plain(head) && needle != "" && needle[0] == '@'
    ensures Replace(head + needle + rest, needle, Some(value)) == head + value + rest
  {
    var s := head + needle + rest;
    assert s[|head|..|head| + |needle|] == needle;
    assert MatchAt(s, needle, |head|);
    forall i | 0 <= i < |head| ensures !MatchAt(s, needle, i) {
      NoMatchBefore(head, needle + rest, needle, i);
      assert s == head + (needle + rest);
    }
    assert Find(s, needle) == Some(|head|);
    assert s[..|head|] == head && s[|head| + |needle|..] == rest;
  }

  lemma JoinFirst(text: string, pieces: seq<string>)
    requires pieces != []
    ensures text + Join(pieces, '@') == Join([text + pieces[0]] + pieces[1..], '@')
  {
    if |pieces| > 1 {
      assert ([text + pieces[0]] + pieces[1..])[1..] == pieces[1..];
    }
  }

  lemma FewPieces(pieces: seq<string>, name: string)
    requires 0 < |pieces| < 3 && AllPlain(pieces)
    ensures forall i :: !MatchAt(Join(pieces, '@'), "@" + name + "@", i)
  {
    var s, needle := Join(pieces, '@'), "@" + name + "@";
    hide Join;
    forall i ensures !MatchAt(s, needle, i) {
      if MatchAt(s, needle, i) {
        MatchChar(s, needle, i, 0);
        MatchChar(s, needle, i, |needle| - 1);
        OneMark(pieces, i);
        OneMark(pieces, i + |needle| - 1);
      }
    }
  }

  lemma OneMark(pieces: seq<string>, i: nat)
    requires 0 < |pieces| < 3 && AllPlain(pieces)
    requires i < |Join(pieces, '@')| && Join(pieces, '@')[i] == '@'
    ensures |pieces| == 2 && i == |pieces[0]|
  {
    if |pieces| == 2 {
      assert Join(pieces, '@') == pieces[0] + "@" + pieces[1];
    }
  }
}
