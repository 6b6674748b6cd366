/** Receiving QMP messages: a byte stream that arrives in arbitrary chunks is cut
    at each CRLF (section 2.1 of the QEMU Machine Protocol Specification). */
module Framing {
  import opened CLib

  const CRLF := "\r\n"
  const NUL := '\0'

  /** g_strstr_len with a length: the search also stops at the first NUL. */
  function StrStrLen(s: string, len: nat, needle: string, p: nat): (r: Option<nat>)
    ensures r.Some? ==> p <= r.value && MatchAt(s, needle, r.value) && NUL !in s[p..r.value]
    decreases |s| - p
  {
    if p >= |s| || p + |needle| > len || s[p] == NUL then None
    else if MatchAt(s, needle, p) then Some(p)
    else
      var r := StrStrLen(s, len, needle, p + 1);
      assert r.Some? ==> s[p..r.value] == [s[p]] + s[p + 1..r.value];
      r
  }

  function Search(s: string): (r: Option<nat>)
    ensures r.Some? ==> MatchAt(s, CRLF, r.value) && r.value + 2 <= |s|
  {
    StrStrLen(s, |s|, CRLF, 0)
  }

  /** A length beyond the end of the text makes no difference. */
  lemma {:induction false} LongerLength(s: string, len: nat, p: nat)
    requires len >= |s|
    ensures StrStrLen(s, len, CRLF, p) == StrStrLen(s, |s|, CRLF, p)
    decreases |s| - p
  {
    if p < |s| && s[p] != NUL && !MatchAt(s, CRLF, p) {
      LongerLength(s, len, p + 1);
    } else if p == |s| - 1 {
      assert !MatchAt(s, CRLF, p);
    }
  }

  /** The complete messages of a stream, and what is left after the last of them. */
  function Frames(s: string): (seq<string>, string)
    decreases |s|
  {
    match Search(s)
    case None => ([], s)
    case Some(p) =>
      var (rest, tail) := Frames(s[p + 2..]);
      ([s[..p]] + rest, tail)
  }

  /** Messages as they are sent: each followed by CRLF. */
  function Unframe(msgs: seq<string>): string {
    if msgs == [] then "" else msgs[0] + CRLF + Unframe(msgs[1..])
  }

  ghost predicate Holds(s: string, needle: string) { exists i :: MatchAt(s, needle, i) }

  // ----- what framing keeps -----

  lemma AroundMatch(s: string, p: nat)
    requires MatchAt(s, CRLF, p)
    ensures s == s[..p] + CRLF + s[p + 2..]
  {
  }

  lemma UnframeFirst(first: string, rest: seq<string>)
    ensures Unframe([first] + rest) == first + "\r\n" + Unframe(rest)
  {
  }

  /** Nothing is lost or invented, whatever the bytes are. */
  lemma {:induction false} Conservation(s: string)
    ensures Unframe(Frames(s).0) + Frames(s).1 == s
    decreases |s|
  {
    hide StrStrLen, MatchAt, Search, Unframe;
    var r := Search(s);
    if r.Some? {
      var p := r.value;
      AroundMatch(s, p);
      Conservation(s[p + 2..]);
      UnframeFirst(s[..p], Frames(s[p + 2..]).0);
    } else {
      NothingFramed();
    }
  }

  lemma NothingFramed()
    ensures Unframe([]) == ""
  {
  }

  lemma {:induction false} SearchFinds(s: string, p: nat)
    requires NUL !in s
    ensures StrStrLen(s, |s|, CRLF, p) == FindFrom(s, CRLF, p)
    decreases |s| - p
  {
    if p < |s| {
      if !MatchAt(s, CRLF, p) {
        SearchFinds(s, p + 1);
      }
    }
  }

  /** In a stream without NUL, neither a message nor the rest holds a CRLF. */
  lemma {:induction false} NoSeparatorLeft(s: string)
    requires NUL !in s
    ensures !Holds(Frames(s).1, CRLF)
    ensures forall i :: 0 <= i < |Frames(s).0| ==> !Holds(Frames(s).0[i], CRLF)
    decreases |s|
  {
    SearchFinds(s, 0);
    var r := Search(s);
    if r.Some? {
      var p := r.value;
      NoSeparatorLeft(s[p + 2..]);
      forall i ensures !MatchAt(s[..p], CRLF, i) {
        assert MatchAt(s[..p], CRLF, i) ==> MatchAt(s, CRLF, i);
      }
    }
  }

  lemma {:induction false} SearchStays(s: string, t: string, p: nat)
    requires StrStrLen(s, |s|, CRLF, p).Some?
    ensures StrStrLen(s + t, |s + t|, CRLF, p) == StrStrLen(s, |s|, CRLF, p)
    ensures p == 0 ==> Search(s + t) == Search(s)
    decreases |s| - p
  {
    assert (s + t)[p] == s[p];
    assert p + 2 <= |s|;
    assert (s + t)[p..p + 2] == s[p..p + 2];
    if !MatchAt(s, CRLF, p) {
      SearchStays(s, t, p + 1);
    }
  }

  /** More bytes only add messages: framing can go on from the unfinished rest. */
  lemma {:induction false} FramesExtend(s: string, t: string)
    ensures var (msgs, rest) := Frames(s); var (more, tail) := Frames(rest + t);
      Frames(s + t) == (msgs + more, tail)
    decreases |s|
  {
    hide StrStrLen;
    var r := Search(s);
    if r.Some? {
      var p := r.value;
      SearchStays(s, t, 0);
      assert (s + t)[..p] == s[..p] && (s + t)[p + 2..] == s[p + 2..] + t;
      assert Search(s + t) == Some(p);
      hide Search, MatchAt;
      FramesExtend(s[p + 2..], t);
      var (msgs, rest) := Frames(s[p + 2..]);
      var (more, tail) := Frames(rest + t);
      assert ([s[..p]] + msgs) + more == [s[..p]] + (msgs + more);
    } else {
      assert [] + Frames(s + t).0 == Frames(s + t).0;
    }
  }

  /** Sending and receiving are inverse on messages without CRLF and NUL. */
  lemma {:induction false} FramesOfMessages(msgs: seq<string>)
    requires forall i :: 0 <= i < |msgs| ==> !Holds(msgs[i], CRLF) && NUL !in msgs[i]
    ensures Frames(Unframe(msgs)) == (msgs, "")
  {
    if msgs != [] {
      var m, rest := msgs[0], Unframe(msgs[1..]);
      var s := Unframe(msgs);
      FramesOfMessages(msgs[1..]);
      FirstSeparator(m, rest, 0);
      assert s == m + CRLF + rest;
      assert s[..|m|] == m && s[|m| + 2..] == rest;
      assert Search(s) == Some(|m|);
      hide Search, StrStrLen;
      assert [m] + msgs[1..] == msgs;
    } else {
      assert Search("") == None;
    }
  }

  lemma {:induction false} FirstSeparator(m: string, rest: string, p: nat)
    requires !Holds(m, CRLF) && NUL !in m && p <= |m|
    ensures var s := m + CRLF + rest; StrStrLen(s, |s|, CRLF, p) == Some(|m|)
    decreases |m| - p
  {
    var s := m + CRLF + rest;
    if p < |m| {
      FirstSeparator(m, rest, p + 1);
      assert s[p] == m[p];
      if p + 1 < |m| {
        assert !MatchAt(m, CRLF, p);
        assert s[p..p + 2] == m[p..p + 2];
      } else {
        assert s[p + 1] == '\r';
        assert s[p..p + 2][1] == '\r';
      }
    } else {
      assert s[p..p + 2] == CRLF;
    }
  }

  // ----- receiving -----

  datatype Outcome = Complete | ReceiveFailed | AssertFailed

  function Concat(chunks: seq<string>): string {
    if chunks == [] then "" else Concat(chunks[..|chunks| - 1]) + chunks[|chunks| - 1]
  }

  /** What receiving does from chunk `k` on, and how many chunks it has used in
      the end. A chunk without bytes, like the lack of one, is a failure. */
  function Recv(chunks: seq<string>, expected: nat, k: nat): (Outcome, nat)
    decreases |chunks| - k
  {
    if k >= |chunks| || chunks[k] == [] then (ReceiveFailed, k)
    else
      var (msgs, rest) := Frames(Concat(chunks[..k + 1]));
      if |msgs| != expected then Recv(chunks, expected, k + 1)
      else (if rest == "" then Complete else AssertFailed, k + 1)
  }

  /** Takes every complete message off the front of the buffer. `total` is the
      number of bytes ever received, which is what the search is bounded by. */
  method TakeMessages(buffer: string, total: nat) returns (msgs: seq<string>, received: string)
    requires total >= |buffer|
    ensures (msgs, received) == Frames(buffer) && |received| <= |buffer|
  {
    msgs, received := [], buffer;
    hide StrStrLen;
    assert [] + Frames(buffer).0 == Frames(buffer).0;
    while received != ""
      invariant |received| <= |buffer|
      invariant (msgs + Frames(received).0, Frames(received).1) == Frames(buffer)
      decreases |received|
    {
      LongerLength(received, total, 0);
      var p := StrStrLen(received, total, CRLF, 0);
      if p.None? {
        assert msgs + [] == msgs;
        return;
      }
      var msg := received[..p.value];
      ghost var next := Frames(received[p.value + 2..]);
      assert msgs + ([msg] + next.0) == (msgs + [msg]) + next.0;
      msgs := msgs + [msg];
      received := received[p.value + 2..];
    }
    EmptyBuffer();
    assert msgs + [] == msgs;
  }

  lemma EmptyBuffer()
    ensures Frames("") == ([], "")
  {
    assert Search("") == None;
  }

  /** One result of g_socket_receive after the other is taken from `chunks`. */
  method MsgRecv(chunks: seq<string>, expected: nat)
    returns (outcome: Outcome, msgs: seq<string>, received: string, used: nat)
    requires expected > 0
    ensures (outcome, used) == Recv(chunks, expected, 0) && used <= |chunks|
    ensures (msgs, received) == Frames(Concat(chunks[..used]))
  {
    msgs, received, used := [], "", 0;
    var total := 0;
    var count := 0;
    EmptyBuffer();
    hide Search, StrStrLen, Frames, MatchAt;
    while true
      invariant used <= |chunks| && count == |msgs| && total >= |received|
      invariant (msgs, received) == Frames(Concat(chunks[..used]))
      invariant Recv(chunks, expected, used) == Recv(chunks, expected, 0)
      decreases |chunks| - used
    {
      if used == |chunks| || chunks[used] == [] {
        outcome := ReceiveFailed;
        return;
      }
      received := received + chunks[used];
      total := total + |chunks[used]|;
      ConcatNext(chunks, used);
      FramesExtend(Concat(chunks[..used]), chunks[used]);
      var more;
      more, received := TakeMessages(received, total);
      msgs := msgs + more;
      count := count + |more|;
      used := used + 1;
      if count == expected {
        break;
      }
    }
    outcome := if received == "" then Complete else AssertFailed;
  }

  lemma ConcatNext(chunks: seq<string>, k: nat)
    requires k < |chunks|
    ensures Concat(chunks[..k + 1]) == Concat(chunks[..k]) + chunks[k]
  {
    assert chunks[..k + 1][..k] == chunks[..k];
  }

  lemma {:induction false} ConcatSplit(chunks: seq<string>, k: nat)
    requires k <= |chunks|
    ensures Concat(chunks) == Concat(chunks[..k]) + Concat(chunks[k..])
  {
    if k < |chunks| {
      var n := |chunks| - 1;
      ConcatSplit(chunks[..n], k);
      assert chunks[..n][..k] == chunks[..k] && chunks[..n][k..] == chunks[k..][..n - k];
    } else {
      assert chunks[..k] == chunks && Concat(chunks) + "" == Concat(chunks);
    }
  }

  /** A proper part of a stream of whole messages holds fewer of them. */
  lemma FewerInPrefix(s: string, t: string)
    requires t != "" && Frames(s + t).1 == ""
    ensures |Frames(s).0| < |Frames(s + t).0|
  {
    FramesExtend(s, t);
  }

  lemma {:induction false} RecvToTheEnd(chunks: seq<string>, expected: nat, k: nat)
    requires k < |chunks|
    requires forall i :: 0 <= i < |chunks| ==> chunks[i] != ""
    requires |Frames(Concat(chunks)).0| == expected && Frames(Concat(chunks)).1 == ""
    ensures Recv(chunks, expected, k) == (Complete, |chunks|)
    decreases |chunks| - k
  {
    if k + 1 == |chunks| {
      assert chunks[..k + 1] == chunks;
    } else {
      ConcatSplit(chunks, k + 1);
      var tail := chunks[k + 1..];
      assert tail[|tail| - 1] == chunks[|chunks| - 1];
      assert Concat(tail) != "";
      FewerInPrefix(Concat(chunks[..k + 1]), Concat(tail));
      RecvToTheEnd(chunks, expected, k + 1);
    }
  }

  /** However a stream of exactly the expected messages is cut into chunks, even
      between CR and LF, receiving completes with those messages and nothing left. */
  lemma ChunkingDoesNotMatter(msgs: seq<string>, chunks: seq<string>)
    requires msgs != [] && Concat(chunks) == Unframe(msgs)
    requires forall i :: 0 <= i < |msgs| ==> !Holds(msgs[i], CRLF) && NUL !in msgs[i]
    requires forall i :: 0 <= i < |chunks| ==> chunks[i] != ""
    ensures Recv(chunks, |msgs|, 0) == (Complete, |chunks|)
    ensures Frames(Concat(chunks[..|chunks|])) == (msgs, "")
  {
    FramesOfMessages(msgs);
    assert chunks[..|chunks|] == chunks;
    RecvToTheEnd(chunks, |msgs|, 0);
  }

  // ----- receiving any stream -----

  /** Messages without a separator or a NUL in them. */
  ghost predicate Clean(texts: seq<string>) {
    forall i :: 0 <= i < |texts| ==> !Holds(texts[i], CRLF) && NUL !in texts[i]
  }

  /** Messages that are complete, and an unfinished one. */
  lemma FramesOfStream(msgs: seq<string>, rest: string)
    requires Clean(msgs) && Clean([rest])
    ensures Frames(Unframe(msgs) + rest) == (msgs, rest)
  {
    FramesOfMessages(msgs);
    FramesExtend(Unframe(msgs), rest);
    assert [rest][0] == rest;
    SearchFinds(rest, 0);
    assert Frames(rest) == ([], rest);
    hide Frames, Unframe;
    assert "" + rest == rest && msgs + [] == msgs;
  }

  lemma {:induction false} SearchStopsAtNul(text: string, tail: string, p: nat)
    requires !Holds(text, CRLF) && NUL !in text && p <= |text|
    ensures var s := text + [NUL] + tail; StrStrLen(s, |s|, CRLF, p) == None
    decreases |text| - p
  {
    var s := text + [NUL] + tail;
    if p < |text| {
      SearchStopsAtNul(text, tail, p + 1);
      assert s[p] == text[p];
      if MatchAt(s, CRLF, p) {
        MatchBeforeNul(text, tail, p);
      }
    } else {
      assert s[p] == NUL;
    }
  }

  lemma MatchBeforeNul(text: string, tail: string, p: nat)
    requires p < |text| && MatchAt(text + [NUL] + tail, CRLF, p)
    ensures MatchAt(text, CRLF, p)
  {
    var s := text + [NUL] + tail;
    assert s[p..p + 2][1] == s[p + 1];
    assert p + 1 < |text|;
    assert text[p..p + 2] == s[p..p + 2];
  }

  /** A NUL ends the search: the messages before it are framed, and whatever comes after it,
      separators included, stays in the buffer. */
  lemma FramesStopAtNul(msgs: seq<string>, text: string, tail: string)
    requires Clean(msgs) && Clean([text])
    ensures Frames(Unframe(msgs) + (text + [NUL] + tail)) == (msgs, text + [NUL] + tail)
  {
    FramesOfMessages(msgs);
    var rest := text + [NUL] + tail;
    FramesExtend(Unframe(msgs), rest);
    assert [text][0] == text;
    SearchStopsAtNul(text, tail, 0);
    assert Frames(rest) == ([], rest);
    hide Frames, Unframe;
    assert "" + rest == rest && msgs + [] == msgs;
  }

  /** How far the first `n` messages reach. */
  function End(msgs: seq<string>, n: nat): nat
    requires n <= |msgs|
  {
    |Unframe(msgs[..n])|
  }

  lemma {:induction false} UnframeSplit(msgs: seq<string>, n: nat)
    requires n <= |msgs|
    ensures Unframe(msgs) == Unframe(msgs[..n]) + Unframe(msgs[n..])
  {
    hide Unframe;
    if n > 0 {
      var first, more := msgs[0], msgs[1..];
      UnframeSplit(more, n - 1);
      UnframeFirst(first, more);
      UnframeFirst(first, more[..n - 1]);
      assert msgs == [first] + more && msgs[..n] == [first] + more[..n - 1] && msgs[n..] == more[n - 1..];
      SameSum(first + "\r\n", Unframe(more[..n - 1]), Unframe(more[n - 1..]));
    } else {
      NothingFramed();
      assert msgs[..0] == [] && msgs[0..] == msgs && "" + Unframe(msgs) == Unframe(msgs);
    }
  }

  lemma SameSum(a: string, b: string, c: string)
    ensures a + (b + c) == (a + b) + c
  {
  }

  /** The part of the stream that has arrived holds the messages that end in it. */
  lemma PartFrames(msgs: seq<string>, rest: string, s: string, t: string) returns (n: nat)
    requires Clean(msgs) && Clean([rest]) && s + t == Unframe(msgs) + rest
    ensures n <= |msgs| && Frames(s).0 == msgs[..n] && s == Unframe(msgs[..n]) + Frames(s).1
    ensures forall m :: 0 <= m <= |msgs| ==> (End(msgs, m) <= |s| <==> m <= n)
  {
    hide Frames, Unframe;
    FramesOfStream(msgs, rest);
    FramesExtend(s, t);
    Conservation(s);
    n := |Frames(s).0|;
    assert msgs[..n] == Frames(s).0;
    forall m | 0 <= m <= |msgs| ensures End(msgs, m) <= |s| <==> m <= n {
      if m <= n {
        UnframeSplit(msgs[..n], m);
        assert msgs[..n][..m] == msgs[..m];
      } else if End(msgs, m) <= |s| {
        ArrivedWhole(msgs, rest, s, t, m);
      }
    }
  }

  lemma ArrivedWhole(msgs: seq<string>, rest: string, s: string, t: string, m: nat)
    requires Clean(msgs) && s + t == Unframe(msgs) + rest && m <= |msgs| && End(msgs, m) <= |s|
    ensures |Frames(s).0| >= m
  {
    hide Frames, Unframe;
    UnframeSplit(msgs, m);
    var head := Unframe(msgs[..m]);
    assert s[..|head|] == (s + t)[..|head|] == head;
    assert s == head + s[|head|..];
    assert forall i :: 0 <= i < m ==> msgs[..m][i] == msgs[i];
    FramesOfMessages(msgs[..m]);
    FramesExtend(head, s[|head|..]);
  }

  /** The bytes of the first `k` chunks. */
  function Arrived(chunks: seq<string>, k: nat): nat
    requires k <= |chunks|
  {
    |Concat(chunks[..k])|
  }

  lemma ArrivedGrows(chunks: seq<string>, j: nat, k: nat)
    requires j <= k <= |chunks|
    ensures Arrived(chunks, j) <= Arrived(chunks, k)
  {
    ConcatSplit(chunks[..k], j);
    assert chunks[..k][..j] == chunks[..j];
  }

  /** One turn of the loop, in bytes. */
  lemma Turn(msgs: seq<string>, rest: string, chunks: seq<string>, expected: nat, k: nat)
    requires Clean(msgs) && Clean([rest]) && Concat(chunks) == Unframe(msgs) + rest
    requires k < |chunks| && chunks[k] != ""
    ensures var b, r := Arrived(chunks, k + 1), Recv(chunks, expected, k);
      && (expected > |msgs| || b < End(msgs, expected) ==> r == Recv(chunks, expected, k + 1))
      && (expected < |msgs| && End(msgs, expected + 1) <= b ==> r == Recv(chunks, expected, k + 1))
      && (expected <= |msgs| && End(msgs, expected) <= b && (expected == |msgs| || b < End(msgs, expected + 1)) ==>
            r == (if b == End(msgs, expected) then Complete else AssertFailed, k + 1))
  {
    hide Frames, Unframe, Clean, Concat;
    ConcatSplit(chunks, k + 1);
    var s := Concat(chunks[..k + 1]);
    var n := PartFrames(msgs, rest, s, Concat(chunks[k + 1..]));
    assert |Frames(s).0| == n;
    assert |s| == End(msgs, n) + |Frames(s).1|;
  }

  lemma {:induction false} NeverExpected(msgs: seq<string>, rest: string, chunks: seq<string>, expected: nat, k: nat)
    requires Clean(msgs) && Clean([rest]) && Concat(chunks) == Unframe(msgs) + rest
    requires forall i :: 0 <= i < |chunks| ==> chunks[i] != ""
    requires k <= |chunks|
    requires
      || expected > |msgs|
      || (expected < |msgs| && k < |chunks| && End(msgs, expected + 1) <= Arrived(chunks, k + 1))
      || (expected < |msgs| && k == |chunks|)
    ensures Recv(chunks, expected, k) == (ReceiveFailed, |chunks|)
    decreases |chunks| - k
  {
    hide Frames, Unframe, Clean, Concat, End, Arrived;
    if k < |chunks| {
      Turn(msgs, rest, chunks, expected, k);
      if k + 1 < |chunks| {
        ArrivedGrows(chunks, k + 1, k + 2);
      }
      hide Recv;
      NeverExpected(msgs, rest, chunks, expected, k + 1);
    }
  }

  /** The first number of chunks, from `k` on, that reach so far. */
  function FirstReach(chunks: seq<string>, bytes: nat, k: nat): (r: nat)
    requires k <= |chunks| && bytes <= Arrived(chunks, |chunks|)
    ensures k <= r <= |chunks| && bytes <= Arrived(chunks, r)
    ensures forall i :: k <= i < r ==> Arrived(chunks, i) < bytes
    decreases |chunks| - k
  {
    if bytes <= Arrived(chunks, k) then k else FirstReach(chunks, bytes, k + 1)
  }

  lemma {:induction false} NotYet(
    msgs: seq<string>, rest: string, chunks: seq<string>, expected: nat, k: nat, last: nat)
    requires Clean(msgs) && Clean([rest]) && Concat(chunks) == Unframe(msgs) + rest
    requires forall i :: 0 <= i < |chunks| ==> chunks[i] != ""
    requires expected <= |msgs| && k <= last < |chunks|
    requires forall i :: k < i <= last ==> Arrived(chunks, i) < End(msgs, expected)
    ensures Recv(chunks, expected, k) == Recv(chunks, expected, last)
    decreases last - k
  {
    hide Frames, Unframe, Clean, Concat, End, Arrived, Recv;
    if k < last {
      Turn(msgs, rest, chunks, expected, k);
      NotYet(msgs, rest, chunks, expected, k + 1, last);
    }
  }

  /** For every stream of messages, with an unfinished one at its end, and every way to cut
      it: receiving goes on until the expected messages have arrived. It completes if the
      last chunk read ends with the last of them; it stops at the assertion if that chunk
      holds more, but not another whole message; it fails once the stream is over if that
      chunk brings more messages than expected, or the stream holds fewer. */
  lemma RecvExactly(msgs: seq<string>, rest: string, chunks: seq<string>, expected: nat)
    requires Clean(msgs) && Clean([rest]) && Concat(chunks) == Unframe(msgs) + rest && expected > 0
    requires forall i :: 0 <= i < |chunks| ==> chunks[i] != ""
    ensures expected <= |msgs| ==> End(msgs, expected) <= Arrived(chunks, |chunks|)
    ensures var r := Recv(chunks, expected, 0);
      if expected > |msgs| then r == (ReceiveFailed, |chunks|)
      else
        var k := FirstReach(chunks, End(msgs, expected), 0);
        var b := Arrived(chunks, k);
        r == if b == End(msgs, expected) then (Complete, k)
             else if expected == |msgs| || b < End(msgs, expected + 1) then (AssertFailed, k)
             else (ReceiveFailed, |chunks|)
  {
    hide Frames, Unframe, Clean, Concat, Recv;
    if expected > |msgs| {
      NeverExpected(msgs, rest, chunks, expected, 0);
    } else {
      AllArrives(msgs, rest, chunks, expected);
      var k := FirstReach(chunks, End(msgs, expected), 0);
      EndPositive(msgs, expected);
      NothingArrived(chunks);
      NotYet(msgs, rest, chunks, expected, 0, k - 1);
      Turn(msgs, rest, chunks, expected, k - 1);
      if expected < |msgs| {
        EndGrows(msgs, expected);
        if End(msgs, expected + 1) <= Arrived(chunks, k) {
          NeverExpected(msgs, rest, chunks, expected, k - 1);
        }
      }
    }
  }

  lemma AllArrives(msgs: seq<string>, rest: string, chunks: seq<string>, n: nat)
    requires Concat(chunks) == Unframe(msgs) + rest && n <= |msgs|
    ensures End(msgs, n) <= Arrived(chunks, |chunks|)
  {
    UnframeSplit(msgs, n);
    assert chunks[..|chunks|] == chunks;
  }

  lemma NothingArrived(chunks: seq<string>)
    ensures Arrived(chunks, 0) == 0
  {
  }

  lemma EndPositive(msgs: seq<string>, n: nat)
    requires 0 < n <= |msgs|
    ensures End(msgs, n) > 0
  {
  }

  lemma EndGrows(msgs: seq<string>, n: nat)
    requires n < |msgs|
    ensures End(msgs, n) < End(msgs, n + 1)
  {
    UnframeSplit(msgs[..n + 1], n);
    assert msgs[..n + 1][..n] == msgs[..n] && msgs[..n + 1][n..] == [msgs[n]];
  }
}
