/**
 `lineDedupWriter`: each complete line passes through the first time it is written; later
 copies are dropped; an unterminated tail is held until `Flush`. The output depends on the
 bytes written, not on how they were cut into `Write` calls, even when the sink fails: a
 line it did not take counts as seen, and the lines behind it wait for the next write.
 */
module LineDedup {
  import opened Orders

  // ------------------------------------------------------------ specification

  /** The position just after the first newline, or 0 if there is none. */
  function LineEnd(s: string): (n: nat)
    ensures n <= |s|
  {
    if s == [] then 0
    else if s[0] == '\n' then 1
    else
      var n := LineEnd(s[1..]);
      if n == 0 then 0 else n + 1
  }

  lemma {:induction false} LineEndMeans(s: string)
    ensures LineEnd(s) == 0 <==> '\n' !in s
    ensures var n := LineEnd(s); n > 0 ==> s[n - 1] == '\n' && '\n' !in s[..n - 1]
  {
    if s != [] && s[0] != '\n' {
      LineEndMeans(s[1..]);
      assert s == [s[0]] + s[1..];
      var n := LineEnd(s[1..]);
      if n > 0 { assert s[..n] == [s[0]] + s[1..][..n - 1]; }
    }
  }

  /** The complete lines of a stream, newlines included. */
  function Lines(s: string): seq<string>
    decreases |s|
  {
    var n := LineEnd(s);
    if n == 0 then [] else [s[..n]] + Lines(s[n..])
  }

  function Tail(s: string): string
    decreases |s|
  {
    var n := LineEnd(s);
    if n == 0 then s else Tail(s[n..])
  }

  /** First occurrences, in order. */
  function FirstOf(lines: seq<string>): seq<string> {
    if lines == [] then []
    else
      var before, x := FirstOf(lines[..|lines| - 1]), lines[|lines| - 1];
      if x in before then before else before + [x]
  }

  function Join(lines: seq<string>): string {
    if lines == [] then "" else Join(lines[..|lines| - 1]) + lines[|lines| - 1]
  }

  /** What a stream comes out as. */
  function Deduplicated(s: string): string { Join(FirstOf(Lines(s))) + Tail(s) }

  /** A sink: which of its calls fail, and how much of the text such a call takes all the same. */
  datatype Sink = Sink(fails: nat -> bool, part: (nat, string) -> nat)

  /** What reaches the other side of the `k`th call. */
  function Sent(d: Sink, k: nat, s: string): string {
    if d.fails(k) && d.part(k, s) < |s| then s[..d.part(k, s)] else s
  }

  /** What reaches it of these lines, one call each. */
  function Delivered(d: Sink, lines: seq<string>): string {
    if lines == [] then ""
    else Delivered(d, lines[..|lines| - 1]) + Sent(d, |lines| - 1, lines[|lines| - 1])
  }

  /** What reaches it of a whole stream. */
  function Through(d: Sink, s: string): string {
    var lines := FirstOf(Lines(s));
    Delivered(d, lines) + if Tail(s) == "" then "" else Sent(d, |lines|, Tail(s))
  }

  ghost predicate NeverFails(d: Sink) { forall k :: !d.fails(k) }

  lemma {:induction false} SoundSinkTakesAll(d: Sink, lines: seq<string>)
    requires NeverFails(d)
    ensures Delivered(d, lines) == Join(lines)
  {
    if lines != [] { SoundSinkTakesAll(d, lines[..|lines| - 1]); }
  }

  /** Nothing is lost in the split: lines and tail spell the stream again. */
  lemma {:induction false} LinesSpellStream(s: string)
    ensures Join(Lines(s)) + Tail(s) == s && '\n' !in Tail(s)
    decreases |s|
  {
    var n := LineEnd(s);
    LineEndMeans(s);
    if n > 0 {
      LinesSpellStream(s[n..]);
      JoinCons(s[..n], Lines(s[n..]));
      Reassemble(s, n, Join(Lines(s[n..])), Tail(s[n..]));
    }
  }

  lemma Reassemble(s: string, n: nat, lines: string, tail: string)
    requires n <= |s| && lines + tail == s[n..]
    ensures (s[..n] + lines) + tail == s
  {
    assert (s[..n] + lines) + tail == s[..n] + (lines + tail);
  }

  lemma {:induction false} JoinCons(x: string, ls: seq<string>)
    ensures Join([x] + ls) == x + Join(ls)
  {
    if ls == [] {
      assert [x] + ls == [x] && [x][..0] == [];
    } else {
      JoinCons(x, ls[..|ls| - 1]);
      assert ([x] + ls)[..|ls|] == [x] + ls[..|ls| - 1];
    }
  }

  lemma {:induction false} LineEndOfConcat(a: string, b: string)
    ensures LineEnd(a) > 0 ==> LineEnd(a + b) == LineEnd(a)
  {
    if a != [] && a[0] != '\n' {
      assert (a + b)[1..] == a[1..] + b;
      LineEndOfConcat(a[1..], b);
    }
  }

  lemma SplitFirst(s: string)
    ensures var n := LineEnd(s);
            if n == 0 then Lines(s) == [] && Tail(s) == s
            else Lines(s) == [s[..n]] + Lines(s[n..]) && Tail(s) == Tail(s[n..])
  {
  }

  /** A stream's lines are those of its first part, then those of the held tail and the rest. */
  lemma {:induction false} LinesOfConcat(a: string, b: string)
    ensures Lines(a + b) == Lines(a) + Lines(Tail(a) + b)
    ensures Tail(a + b) == Tail(Tail(a) + b)
    decreases |a|
  {
    var n := LineEnd(a);
    SplitFirst(a);
    if n > 0 {
      LineEndOfConcat(a, b);
      SplitFirst(a + b);
      CutFront(a, b, n);
      LinesOfConcat(a[n..], b);
    }
  }

  lemma CutFront(a: string, b: string, n: nat)
    requires n <= |a|
    ensures (a + b)[..n] == a[..n] && (a + b)[n..] == a[n..] + b
  {
  }

  lemma {:induction false} FirstOfMembers(lines: seq<string>)
    ensures ToSet(FirstOf(lines)) == ToSet(lines) && Distinct(FirstOf(lines))
  {
    if lines != [] {
      var n := |lines| - 1;
      FirstOfMembers(lines[..n]);
      assert lines == lines[..n] + [lines[n]];
      DistinctSnoc(lines[..n], lines[n]);
      DistinctSnoc(FirstOf(lines[..n]), lines[n]);
    }
  }

  /** Each line comes out where it is first met, and not again. */
  lemma {:induction false} FirstOfInOrder(lines: seq<string>)
    ensures InFirstOrder(FirstOf(lines), lines)
  {
    if lines != [] {
      var n := |lines| - 1;
      FirstOfInOrder(lines[..n]);
      FirstOrderSnoc(FirstOf(lines[..n]), lines[..n], lines[n]);
      assert lines == lines[..n] + [lines[n]];
    }
  }

  /** A complete line ends in its only newline. */
  lemma {:induction false} LinesAreLines(s: string, i: nat)
    requires i < |Lines(s)|
    ensures var line := Lines(s)[i]; line != "" && line[|line| - 1] == '\n' && '\n' !in line[..|line| - 1]
    decreases |s|
  {
    var n := LineEnd(s);
    LineEndMeans(s);
    if i == 0 {
      assert s[..n][..n - 1] == s[..n - 1];
    } else {
      LinesAreLines(s[n..], i - 1);
    }
  }

  // ----------------------------------------------------------------- the writer

  class LineDedupWriter {
    const device: Sink
    var sink: string
    var calls: nat
    var seen: set<string>
    var pending: string

    /** The lines passed on so far and what is still held. */
    ghost predicate Midway(stream: string, hist: seq<string>)
      reads this
    {
      && Lines(stream) == hist + Lines(pending) && Tail(stream) == Tail(pending)
      && sink == Delivered(device, FirstOf(hist)) && calls == |FirstOf(hist)| && seen == ToSet(hist)
    }

    /** The writer's state after a stream whose lines were all passed on. */
    ghost predicate Holds(stream: string)
      reads this
    {
      Midway(stream, Lines(stream)) && pending == Tail(stream)
    }

    constructor (d: Sink)
      ensures Holds("") && device == d && calls == 0
    {
      device := d;
      sink, calls, seen, pending := "", 0, {}, "";
    }

    /** Pass the first held line on, unless it was seen; it counts as seen even if the sink fails. */
    method TakeLine(i: nat, ghost stream: string, ghost hist: seq<string>) returns (ok: bool)
      requires Midway(stream, hist) && i == LineEnd(pending) > 0
      modifies this
      ensures Midway(stream, hist + [old(pending)[..i]]) && pending == old(pending)[i..]
      ensures calls == old(calls) || calls == old(calls) + 1
      ensures ok <==> calls == old(calls) || !device.fails(old(calls))
    {
      var line := pending[..i];
      NextLine(device, hist, line);
      TakeStep(stream, hist, pending, i);
      pending := pending[i..];
      ok := true;
      if line !in seen {
        seen := seen + {line};
        sink := sink + Sent(device, calls, line);
        ok := !device.fails(calls);
        calls := calls + 1;
      }
    }

    /** `Write`: stops at the first call the sink fails, holding what is behind that line. */
    method Write(p: string, ghost stream: string, ghost hist: seq<string>) returns (n: nat, ok: bool, ghost hist': seq<string>)
      requires Midway(stream, hist)
      modifies this
      ensures n == |p| && Midway(stream + p, hist') && calls >= old(calls)
      ensures ok <==> forall k :: old(calls) <= k < calls ==> !device.fails(k)
      ensures ok ==> Holds(stream + p)
    {
      hist' := hist;
      WriteStep(stream, hist, pending, p);
      pending := pending + p;
      n, ok := |p|, true;
      var i := LineEnd(pending);
      while i > 0
        invariant Midway(stream + p, hist') && i == LineEnd(pending) && ok && calls >= old(calls)
        invariant forall k :: old(calls) <= k < calls ==> !device.fails(k)
        decreases |pending|
      {
        ghost var line := pending[..i];
        ok := TakeLine(i, stream + p, hist');
        hist' := hist' + [line];
        if !ok {
          return;
        }
        i := LineEnd(pending);
      }
      assert hist' + [] == hist';
    }

    /** `Flush`: whatever is held goes out as it is. */
    method Flush(ghost stream: string)
      modifies this
      ensures pending == "" && sink == old(sink) + if old(pending) == "" then "" else Sent(device, old(calls), old(pending))
      ensures old(Holds(stream)) ==> sink == Through(device, stream)
    {
      if |pending| > 0 {
        sink := sink + Sent(device, calls, pending);
        calls := calls + 1;
        pending := "";
      }
    }
  }

  lemma AppendAssociates(a: seq<string>, b: seq<string>, c: seq<string>)
    ensures (a + b) + c == a + (b + c)
  {
  }

  lemma WriteStep(stream: string, hist: seq<string>, pending: string, p: string)
    requires Lines(stream) == hist + Lines(pending) && Tail(stream) == Tail(pending)
    ensures Lines(stream + p) == hist + Lines(pending + p) && Tail(stream + p) == Tail(pending + p)
  {
    LinesOfConcat(stream, p);
    LinesOfConcat(pending, p);
    AppendAssociates(hist, Lines(pending), Lines(Tail(pending) + p));
  }

  lemma TakeStep(stream: string, hist: seq<string>, pending: string, i: nat)
    requires Lines(stream) == hist + Lines(pending) && Tail(stream) == Tail(pending) && i == LineEnd(pending) > 0
    ensures Lines(stream) == (hist + [pending[..i]]) + Lines(pending[i..]) && Tail(stream) == Tail(pending[i..])
  {
    assert Lines(pending) == [pending[..i]] + Lines(pending[i..]);
  }

  lemma NextLine(d: Sink, hist: seq<string>, x: string)
    ensures ToSet(hist + [x]) == ToSet(hist) + {x}
    ensures var was, now := FirstOf(hist), FirstOf(hist + [x]);
            if x in ToSet(hist) then now == was
            else |now| == |was| + 1 && Delivered(d, now) == Delivered(d, was) + Sent(d, |was|, x)
  {
    FirstOfMembers(hist);
    assert (hist + [x])[..|hist|] == hist;
    var first := FirstOf(hist);
    assert x in first <==> x in ToSet(first);
    assert (first + [x])[..|first|] == first;
  }

  /**
   Any way of cutting the stream into writes gives the same output, failing sink or not, as
   long as the last write got through; on a sound sink that is the deduplicated stream.
   */
  method WriteChunks(d: Sink, chunks: seq<string>) returns (out: string, drained: bool)
    ensures drained ==> out == Through(d, Join(chunks))
    ensures NeverFails(d) ==> drained && out == Deduplicated(Join(chunks))
  {
    var w := new LineDedupWriter(d);
    ghost var hist: seq<string> := [];
    drained := true;
    for i := 0 to |chunks|
      invariant fresh(w) && w.device == d && w.Midway(Join(chunks[..i]), hist)
      invariant drained ==> w.Holds(Join(chunks[..i]))
      invariant NeverFails(d) ==> drained
    {
      assert chunks[..i + 1][..i] == chunks[..i];
      var n;
      n, drained, hist := w.Write(chunks[i], Join(chunks[..i]), hist);
    }
    assert chunks[..|chunks|] == chunks;
    w.Flush(Join(chunks));
    out := w.sink;
    if NeverFails(d) { SoundSinkTakesAll(d, FirstOf(Lines(Join(chunks)))); }
  }
}
