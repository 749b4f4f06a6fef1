/** Separating a model's reasoning from its answer while the text streams in
    (rynmesh/llm_runtime_server.py). */
module ThinkingSplitter {
  import opened Basics
  import Text

  const OPENING := "<think>"
  const MARKER := "</think>"

  predicate MarkerAt(s: string, i: int) {
    0 <= i && i + |MARKER| <= |s| && s[i..i + |MARKER|] == MARKER
  }

  /** Where the first marker starts. */
  function FindMarker(s: string): (r: Option<nat>)
    ensures r.None? ==> forall i :: !MarkerAt(s, i)
    ensures r.Some? ==> MarkerAt(s, r.value) && forall i :: i < r.value ==> !MarkerAt(s, i)
    ensures r.Some? ==> r.value + |MARKER| <= |s|
  {
    if |s| < |MARKER| then None
    else if s[..|MARKER|] == MARKER then
      assert MarkerAt(s, 0);
      Some(0)
    else
      var r := FindMarker(s[1..]);
      ShiftedMarkers(s);
      if r.None? then None else Some(r.value + 1)
  }

  lemma ShiftedMarkers(s: string)
    requires |s| > 0
    ensures forall i :: i >= 1 ==> (MarkerAt(s, i) <==> MarkerAt(s[1..], i - 1))
    ensures MarkerAt(s, 0) <==> |s| >= |MARKER| && s[..|MARKER|] == MARKER
  {
    forall i | i >= 1 ensures MarkerAt(s, i) <==> MarkerAt(s[1..], i - 1) {
      if i + |MARKER| <= |s| {
        assert s[1..][i - 1..i - 1 + |MARKER|] == s[i..i + |MARKER|];
      }
    }
  }

  datatype Split = Split(reasoning: string, answer: string)

  /** The text without an opening marker at its start, if it has one. */
  function Opened(text: string): string {
    var stripped := Text.LeftStrip(text);
    if OPENING <= stripped then stripped[|OPENING|..] else text
  }

  function SplitAtMarker(text: string): Split {
    var m := FindMarker(text);
    if m.None? then Split(text, "") else Split(text[..m.value], text[m.value + |MARKER|..])
  }

  /** The whole text at once. */
  function Batch(enabled: bool, text: string): Split {
    if enabled then SplitAtMarker(Opened(text)) else Split("", text)
  }

  // ---------------------------------------------------------------- the incremental splitter

  datatype Splitter = Splitter(thinking: bool, initial: bool, pending: string)

  function Fresh(enabled: bool): Splitter {
    Splitter(enabled, enabled, "")
  }

  datatype Fed = Fed(next: Splitter, out: Split)

  function Release(pending: string, final: bool): Fed {
    var m := FindMarker(pending);
    if m.Some? then Fed(Splitter(false, false, ""), SplitAtMarker(pending))
    else
      var keep := if final then 0 else |MARKER| - 1;
      var count := if |pending| > keep then |pending| - keep else 0;
      Fed(Splitter(true, false, pending[count..]), Split(pending[..count], ""))
  }

  /** The beginning does not yet tell whether the text opens with the marker. */
  predicate Undecided(text: string) {
    Text.LeftStrip(text) <= OPENING
  }

  function Feed(s: Splitter, text: string, final: bool): Fed {
    if !s.thinking then Fed(s, Split("", text))
    else
      var pending := s.pending + text;
      if s.initial && !final && Undecided(pending) then Fed(s.(pending := pending), Split("", ""))
      else Release(if s.initial then Opened(pending) else pending, final)
  }

  /** The stream never lags: before the beginning is decided only blanks and a part of the opening
      marker are held back, after it at most seven characters and only while no closing marker has
      been seen, and nothing once the stream has ended. */
  lemma HoldsLittle(s: Splitter, text: string, final: bool)
    requires !s.thinking ==> s.pending == ""
    ensures var n := Feed(s, text, final).next;
            && (n.initial && n.thinking ==> s.initial && !final && Text.LeftStrip(n.pending) <= "<think>")
            && (!n.initial && n.thinking ==> |n.pending| == if final then 0 else Min(|if s.initial then Opened(s.pending + text) else s.pending + text|, 7))
            && (!n.thinking ==> n.pending == "")
  {
    hide FindMarker, Text.LeftStrip;
  }

  class ThinkingSplitter {
    var thinking: bool
    var initial: bool
    var pending: string

    function State(): Splitter
      reads this
    {
      Splitter(thinking, initial, pending)
    }

    constructor (enabled: bool)
      ensures State() == Fresh(enabled)
    {
      thinking, initial, pending := enabled, enabled, "";
    }

    method FeedText(text: string, final: bool) returns (reasoning: string, answer: string)
      modifies this
      ensures Feed(old(State()), text, final) == Fed(State(), Split(reasoning, answer))
    {
      hide Release, Text.LeftStrip;
      if !thinking {
        return "", text;
      }
      pending := pending + text;
      if initial {
        var stripped := Text.LeftStrip(pending);
        if !final && stripped <= OPENING {
          return "", "";
        }
        if OPENING <= stripped {
          pending := stripped[|OPENING|..];
        }
        initial := false;
      }
      reasoning, answer := ReleaseText(final);
    }

    method ReleaseText(final: bool) returns (reasoning: string, answer: string)
      requires thinking && !initial
      modifies this`thinking, this`pending
      ensures Release(old(pending), final) == Fed(State(), Split(reasoning, answer))
    {
      hide FindMarker, MarkerAt;
      var m := FindMarker(pending);
      if m.Some? {
        reasoning, answer := pending[..m.value], pending[m.value + |MARKER|..];
        pending, thinking := "", false;
        return;
      }
      var keep := if final then 0 else |MARKER| - 1;
      var count := if |pending| > keep then |pending| - keep else 0;
      reasoning, answer := pending[..count], "";
      pending := pending[count..];
    }
  }

  // ---------------------------------------------------------------- streaming equals batch

  /** What has come out so far, of the text fed in so far. */
  ghost predicate Tracks(s: Splitter, enabled: bool, text: string, out: Split) {
    if !enabled then s == Splitter(false, false, "") && out == Split("", text)
    else if s.initial then s == Splitter(true, true, text) && Undecided(text) && out == Split("", "")
    else
      !Undecided(text) &&
      var body := Opened(text);
      if s.thinking then
        && FindMarker(body).None? && out.answer == "" && out.reasoning + s.pending == body
        && (out.reasoning != "" ==> |s.pending| >= |MARKER| - 1)
      else s.pending == "" && FindMarker(body).Some? && out == SplitAtMarker(body)
  }

  lemma {:induction false} LeftStripAppend(a: string, b: string)
    requires Text.LeftStrip(a) != ""
    ensures Text.LeftStrip(a + b) == Text.LeftStrip(a) + b
    decreases |a|
  {
    hide Text.IsSpace;
    if a != "" {
      assert (a + b)[0] == a[0] && (a + b)[1..] == a[1..] + b;
      if Text.IsSpace(a[0]) {
        LeftStripAppend(a[1..], b);
      }
    }
  }

  /** Once the beginning is decided, more text does not change the decision. */
  lemma OpenedAppend(a: string, b: string)
    requires !Undecided(a)
    ensures !Undecided(a + b) && Opened(a + b) == Opened(a) + b
  {
    hide Text.LeftStrip, Text.IsSpace;
    var stripped := Text.LeftStrip(a);
    assert stripped != "";
    LeftStripAppend(a, b);
  }

  lemma MarkerInTail(x: string, y: string, i: int)
    requires i >= |x|
    ensures MarkerAt(x + y, i) <==> MarkerAt(y, i - |x|)
  {
  }

  lemma MarkerInHead(x: string, y: string, i: int)
    requires i + |MARKER| <= |x|
    ensures MarkerAt(x + y, i) <==> MarkerAt(x, i)
  {
  }

  /** A marker found after appending starts no earlier than what was held back. Here `seen`
      is what came before `more`, and `tail` what was held back of it followed by `more`. */
  lemma MarkersInHeldBack(released: string, tail: string, seen: string, more: string, i: int)
    requires released + tail == seen + more && FindMarker(seen).None?
    requires released != "" ==> |seen| >= |released| + |MARKER| - 1
    ensures MarkerAt(released + tail, i) <==> i >= |released| && MarkerAt(tail, i - |released|)
  {
    hide FindMarker, MarkerAt;
    if i >= |released| {
      MarkerInTail(released, tail, i);
    } else {
      NoneReleased(|released|, seen, more, i);
    }
  }

  lemma NoneReleased(released: nat, seen: string, more: string, i: int)
    requires FindMarker(seen).None? && i < released && (released > 0 ==> |seen| >= released + |MARKER| - 1)
    ensures !MarkerAt(seen + more, i)
  {
    hide FindMarker;
    if 0 <= i {
      hide MarkerAt;
      assert !MarkerAt(seen, i);
      MarkerInHead(seen, more, i);
    }
  }

  /** Splitting what was held back plus the new text finishes the split of everything. */
  lemma SplitHeldBack(released: string, held: string, more: string)
    requires FindMarker(released + held).None? && (released != "" ==> |held| >= |MARKER| - 1)
    ensures var whole, tail := released + held + more, held + more;
            && (FindMarker(whole).Some? <==> FindMarker(tail).Some?)
            && (FindMarker(tail).Some? ==>
                  SplitAtMarker(whole) == Split(released + SplitAtMarker(tail).reasoning, SplitAtMarker(tail).answer))
  {
    hide FindMarker, MarkerAt;
    var whole, tail := released + held + more, held + more;
    assert whole == released + tail;
    forall i ensures MarkerAt(whole, i) <==> i >= |released| && MarkerAt(tail, i - |released|) {
      MarkersInHeldBack(released, tail, released + held, more, i);
    }
    var m := FindMarker(tail);
    if m.Some? {
      assert MarkerAt(whole, |released| + m.value);
      assert whole[..|released| + m.value] == released + tail[..m.value];
      assert whole[|released| + m.value + |MARKER|..] == tail[m.value + |MARKER|..];
    }
  }

  function Append(a: Split, b: Split): Split {
    Split(a.reasoning + b.reasoning, a.answer + b.answer)
  }

  /** The first release, when the beginning has just been decided. */
  lemma FirstRelease(text: string)
    requires !Undecided(text)
    ensures var f := Release(Opened(text), false);
            Tracks(f.next, true, text, f.out)
  {
    hide FindMarker, MarkerAt, Opened, SplitAtMarker, Undecided;
    var f := Release(Opened(text), false);
    assert f.out.reasoning + f.next.pending == Opened(text) || FindMarker(Opened(text)).Some?;
  }

  lemma LaterRelease(s: Splitter, before: string, text: string, out: Split)
    requires Tracks(s, true, before, out) && s.thinking && !s.initial
    ensures var f := Release(s.pending + text, false);
            Tracks(f.next, true, before + text, Append(out, f.out))
  {
    hide FindMarker, Undecided, MarkerAt, Opened, SplitAtMarker;
    OpenedAppend(before, text);
    SplitHeldBack(out.reasoning, s.pending, text);
    var f := Release(s.pending + text, false);
    assert out.reasoning + (s.pending + text) == Opened(before) + text;
    if FindMarker(s.pending + text).None? {
      assert f.out.reasoning + f.next.pending == s.pending + text;
      assert (out.reasoning + f.out.reasoning) + f.next.pending == Opened(before) + text;
      assert |f.next.pending| >= |MARKER| - 1 || (f.out.reasoning == "" && f.next.pending == s.pending + text);
    } else {
      assert out.answer + f.out.answer == f.out.answer;
    }
  }

  lemma AnswerContinues(before: string, text: string)
    requires !Undecided(before) && FindMarker(Opened(before)).Some?
    ensures SplitAtMarker(Opened(before + text)) == Append(SplitAtMarker(Opened(before)), Split("", text))
    ensures FindMarker(Opened(before + text)) == FindMarker(Opened(before))
  {
    hide Undecided, FindMarker, MarkerAt, Opened;
    OpenedAppend(before, text);
    var body := Opened(before);
    var m := FindMarker(body).value;
    forall j | j <= m ensures MarkerAt(body + text, j) <==> MarkerAt(body, j) {
      MarkerInHead(body, text, j);
    }
    assert (body + text)[..m] == body[..m];
    assert (body + text)[m + |MARKER|..] == body[m + |MARKER|..] + text;
    assert body[..m] + "" == body[..m];
  }

  /** Feeding a piece keeps track. */
  lemma FeedTracks(s: Splitter, enabled: bool, before: string, text: string, out: Split)
    requires Tracks(s, enabled, before, out)
    ensures var f := Feed(s, text, false);
            Tracks(f.next, enabled, before + text, Append(out, f.out))
  {
    hide FindMarker, Undecided, Release, SplitAtMarker, Opened;
    assert "" + "" == "";
    if enabled {
      if s.initial {
        if !Undecided(before + text) {
          FirstRelease(before + text);
          var f := Release(Opened(before + text), false);
          assert Append(out, f.out) == f.out;
        }
      } else if s.thinking {
        LaterRelease(s, before, text, out);
      } else {
        AnswerContinues(before, text);
        OpenedAppend(before, text);
      }
    }
  }

  /** The final empty feed releases the rest as reasoning and never any answer, so the answer
      it returns can be ignored. */
  lemma FinalFeedFinishes(s: Splitter, enabled: bool, text: string, out: Split)
    requires Tracks(s, enabled, text, out)
    ensures var f := Feed(s, "", true);
            f.out.answer == "" && Append(out, f.out) == Batch(enabled, text)
  {
    hide FindMarker, Undecided;
    assert s.pending + "" == s.pending;
    if enabled && s.thinking {
      if s.initial {
        NoMarkerWhileUndecided(text);
        assert Opened(text)[..|Opened(text)|] == Opened(text);
      } else {
        SplitHeldBack(out.reasoning, s.pending, "");
        assert out.reasoning + s.pending + "" == Opened(text);
        assert s.pending[..|s.pending|] == s.pending;
      }
    } else {
      assert out.reasoning + "" == out.reasoning && out.answer + "" == out.answer;
    }
  }

  lemma NoMarkerWhileUndecided(text: string)
    requires Undecided(text)
    ensures FindMarker(Opened(text)).None?
  {
    var stripped := Text.LeftStrip(text);
    var body := Opened(text);
    if OPENING <= stripped {
      assert body == "";
    } else {
      forall i ensures !MarkerAt(text, i) {
        if 0 <= i && i + |MARKER| <= |text| && text[i..i + |MARKER|] == MARKER {
          NotSpaces(text, i);
        }
      }
    }
  }

  /** All markers start with '<' and have '/' next; text still undecided has no such pair. */
  lemma NotSpaces(text: string, i: nat)
    requires Undecided(text) && i + |MARKER| <= |text|
    ensures text[i..i + |MARKER|] != MARKER
  {
    var stripped := Text.LeftStrip(text);
    var lead := |text| - |stripped|;
    assert text[lead..] == stripped;
    var found := text[i..i + |MARKER|];
    assert found[1] == text[i + 1];
    assert !Text.IsSpace('/');
    if i + 1 >= lead {
      assert text[i + 1] == stripped[i + 1 - lead];
      assert stripped[i + 1 - lead] == OPENING[i + 1 - lead];
    }
  }

  function Concat(pieces: seq<string>): string {
    if pieces == [] then "" else Concat(pieces[..|pieces| - 1]) + pieces[|pieces| - 1]
  }

  /** What the streaming loop does with the model's pieces: every way of cutting the text gives
      the split of the whole text, although the answer of the final feed is thrown away. */
  method SplitStream(pieces: seq<string>, enabled: bool) returns (reasoning: string, answer: string)
    ensures Split(reasoning, answer) == Batch(enabled, Concat(pieces))
  {
    hide Tracks, Feed, Batch;
    var splitter := new ThinkingSplitter(enabled);
    reasoning, answer := "", "";
    assert Tracks(Fresh(enabled), enabled, "", Split("", "")) by { FreshTracks(enabled); }
    var i := 0;
    while i < |pieces|
      invariant i <= |pieces| && Tracks(splitter.State(), enabled, Concat(pieces[..i]), Split(reasoning, answer))
    {
      assert pieces[..i + 1][..i] == pieces[..i];
      FeedTracks(splitter.State(), enabled, Concat(pieces[..i]), pieces[i], Split(reasoning, answer));
      var r, a := splitter.FeedText(pieces[i], false);
      reasoning, answer := reasoning + r, answer + a;
      i := i + 1;
    }
    assert pieces[..i] == pieces;
    FinalFeedFinishes(splitter.State(), enabled, Concat(pieces), Split(reasoning, answer));
    var rest, _ := splitter.FeedText("", true);
    assert answer + "" == answer;
    reasoning := reasoning + rest;
  }

  lemma FreshTracks(enabled: bool)
    ensures Tracks(Fresh(enabled), enabled, "", Split("", ""))
  {
  }
}
