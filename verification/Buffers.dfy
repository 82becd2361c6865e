/** Bounded buffers over unbounded output: the agent's byte ring and a build's last lines. What
    each shows depends only on everything written, not on how it was cut into writes. */
module Buffers {
  import opened Chunks

  /** The last n elements, or all of them. */
  function Last<T>(s: seq<T>, n: nat): seq<T> {
    if |s| <= n then s else s[|s| - n..]
  }

  // ---- Rings ----

  /** What a ring holds, oldest first: `w` is where the next element goes. */
  function View<T>(ring: seq<T>, w: nat, full: bool): seq<T>
    requires w <= |ring|
  {
    if full then ring[w..] + ring[..w] else ring[..w]
  }

  predicate Holds<T(==)>(ring: seq<T>, w: nat, full: bool, history: seq<T>) {
    && (w < |ring| || w == 0)
    && View(ring, w, full) == Last(history, |ring|)
  }

  /** The same, element by element. */
  predicate Keeps<T(==)>(ring: seq<T>, w: nat, full: bool, history: seq<T>) {
    var size, total := |ring|, |history|;
    && w < size
    && (full ==> total >= size)
    && (!full ==> w == total)
    && (forall i :: 0 <= i < w ==> ring[i] == history[total - w + i])
    && (full ==> forall i :: w <= i < size ==> ring[i] == history[total - size - w + i])
  }

  lemma HoldsIsKeeps<T>(ring: seq<T>, w: nat, full: bool, history: seq<T>)
    requires ring != []
    ensures Holds(ring, w, full, history) <==> Keeps(ring, w, full, history)
  {
    if w < |ring| {
      var view, last := View(ring, w, full), Last(history, |ring|);
      if Holds(ring, w, full, history) {
        assert |view| == |last|;
        assert forall i :: 0 <= i < w ==> ring[i] == view[|view| - w + i];
        assert full ==> forall i :: w <= i < |ring| ==> ring[i] == view[i - w];
      }
      if Keeps(ring, w, full, history) {
        assert |view| == |last|;
        assert forall i :: 0 <= i < |view| ==> view[i] == last[i];
      }
    }
  }

  /** A stretch of a buffer replaced. */
  function Put<T>(ring: seq<T>, at: nat, p: seq<T>): seq<T>
    requires at + |p| <= |ring|
  {
    ring[..at] + p + ring[at + |p|..]
  }

  /** `p` written from `w` on, going round at the end. */
  function RingAfter<T>(ring: seq<T>, w: nat, p: seq<T>): seq<T>
    requires w <= |ring| && |p| <= |ring|
  {
    if w + |p| <= |ring| then Put(ring, w, p)
    else var k := |ring| - w; Put(Put(ring, w, p[..k]), 0, p[k..])
  }

  predicate Written<T(==)>(ring: seq<T>, after: seq<T>, w: nat, p: seq<T>)
    requires w <= |ring|
  {
    && |after| == |ring|
    && forall i :: 0 <= i < |ring| ==>
         after[i] == if w <= i < w + |p| then p[i - w] else if i < w + |p| - |ring| then p[i + |ring| - w] else ring[i]
  }

  lemma AfterIsWritten<T>(ring: seq<T>, w: nat, p: seq<T>)
    requires w <= |ring| && |p| <= |ring|
    ensures Written(ring, RingAfter(ring, w, p), w, p)
  {
    if w + |p| <= |ring| {
      PutAt(ring, w, p);
    } else {
      var k := |ring| - w;
      PutAt(ring, w, p[..k]);
      PutAt(Put(ring, w, p[..k]), 0, p[k..]);
    }
  }

  lemma PutAt<T>(ring: seq<T>, at: nat, p: seq<T>)
    requires at + |p| <= |ring|
    ensures |Put(ring, at, p)| == |ring|
    ensures forall i :: 0 <= i < |ring| ==> Put(ring, at, p)[i] == if at <= i < at + |p| then p[i - at] else ring[i]
  {}

  /** Where writing n elements from `w` ends. */
  function Ahead(w: nat, n: nat, size: nat): nat {
    if w + n >= size then w + n - size else w + n
  }

  lemma AheadIsModulo(w: nat, n: nat, size: nat)
    requires w < size && n <= size
    ensures Ahead(w, n, size) == (w + n) % size
  {
    ModuloOnce(w + n, size);
  }

  lemma ModuloOnce(x: nat, size: nat)
    requires 0 < size && x < 2 * size
    ensures x % size == if x >= size then x - size else x
  {
    if x >= size { assert x / size == 1; }
  }

  method Around(w: nat, n: nat, size: nat) returns (at: nat)
    requires w < size && n <= size
    ensures at == Ahead(w, n, size)
  {
    AheadIsModulo(w, n, size);
    at := (w + n) % size;
  }

  lemma Advances<T>(ring: seq<T>, after: seq<T>, w: nat, full: bool, p: seq<T>, history: seq<T>)
    requires Keeps(ring, w, full, history) && |p| <= |ring| && Written(ring, after, w, p)
    ensures Keeps(after, Ahead(w, |p|, |ring|), full || w + |p| >= |ring|, history + p)
  {}

  lemma KeepsStep<T>(ring: seq<T>, w: nat, full: bool, p: seq<T>, history: seq<T>)
    requires Keeps(ring, w, full, history) && |p| <= |ring|
    ensures Keeps(RingAfter(ring, w, p), Ahead(w, |p|, |ring|), full || w + |p| >= |ring|, history + p)
  {
    AfterIsWritten(ring, w, p);
    Advances(ring, RingAfter(ring, w, p), w, full, p, history);
  }

  lemma RingStep<T>(ring: seq<T>, w: nat, full: bool, p: seq<T>, history: seq<T>)
    requires Holds(ring, w, full, history) && 0 < |ring| && |p| <= |ring|
    ensures Holds(RingAfter(ring, w, p), Ahead(w, |p|, |ring|), full || w + |p| >= |ring|, history + p)
  {
    HoldsIsKeeps(ring, w, full, history);
    KeepsStep(ring, w, full, p, history);
    HoldsIsKeeps(RingAfter(ring, w, p), Ahead(w, |p|, |ring|), full || w + |p| >= |ring|, history + p);
  }

  lemma PutOne<T>(ring: seq<T>, w: nat, x: T)
    requires w < |ring|
    ensures ring[w := x] == RingAfter(ring, w, [x])
  {}

  /** A write at least as long as the ring replaces all of it. */
  lemma RingOverrun<T>(ring: seq<T>, p: seq<T>, history: seq<T>)
    requires |p| >= |ring|
    ensures Holds(Put(ring, 0, p[|p| - |ring|..]), 0, true, history + p)
  {}

  lemma PutBoth<T>(blank: seq<T>, a: seq<T>, b: seq<T>)
    requires |blank| == |a| + |b|
    ensures Put(Put(blank, 0, a), |a|, b) == a + b
  {}

  // ---- The byte ring ----

  method Copy(dst: array<Byte>, at: nat, p: Bytes)
    requires at + |p| <= dst.Length
    modifies dst
    ensures dst[..] == Put(old(dst[..]), at, p)
  {
    forall i | 0 <= i < |p| {
      dst[at + i] := p[i];
    }
  }

  class RingBuffer {
    const buf: array<Byte>
    var w: nat
    var full: bool
    ghost var history: Bytes

    ghost predicate Valid()
      reads this, buf
    {
      Holds(buf[..], w, full, history)
    }

    constructor (size: nat)
      ensures Valid() && fresh(buf) && buf.Length == size && history == []
    {
      buf := new Byte[size];
      w, full, history := 0, false, [];
    }

    /** Copies `p` in at the write position, the part past the end to the front. */
    method Place(p: Bytes)
      requires w <= buf.Length && |p| <= buf.Length
      modifies buf
      ensures buf[..] == RingAfter(old(buf[..]), w, p)
    {
      if w + |p| <= buf.Length {
        Copy(buf, w, p);
      } else {
        var k := buf.Length - w;
        Copy(buf, w, p[..k]);
        Copy(buf, 0, p[k..]);
      }
    }

    method Write(p: Bytes) returns (n: nat)
      requires Valid()
      modifies this, buf
      ensures Valid() && n == |p| && history == old(history) + p
    {
      n := |p|;
      if n >= buf.Length {
        Overrun(p);
      } else {
        Advance(p);
      }
    }

    method Overrun(p: Bytes)
      requires |p| >= buf.Length
      modifies this, buf
      ensures Valid() && history == old(history) + p
    {
      RingOverrun(buf[..], p, history);
      Copy(buf, 0, p[|p| - buf.Length..]);
      w, full, history := 0, true, history + p;
    }

    method Advance(p: Bytes)
      requires Valid() && |p| < buf.Length
      modifies this, buf
      ensures Valid() && history == old(history) + p
    {
      var end := w + |p|;
      RingStep(buf[..], w, full, p, history);
      Place(p);
      if end > buf.Length { full := true; }
      w := Around(w, |p|, buf.Length);
      if end >= buf.Length { full := true; }
      history := history + p;
    }

    /** The buffered bytes in order: the last of everything written, as many as fit. */
    method Snapshot() returns (out: array<Byte>)
      requires Valid()
      ensures fresh(out) && out[..] == Last(history, buf.Length)
    {
      if !full {
        out := new Byte[w];
        PutBoth(out[..], buf[..w], []);
        Copy(out, 0, buf[..w]);
        return;
      }
      out := new Byte[buf.Length];
      PutBoth(out[..], buf[w..], buf[..w]);
      Copy(out, 0, buf[w..]);
      Copy(out, buf.Length - w, buf[..w]);
    }
  }

  // ---- Lines ----

  /** Text cut at its newlines: the terminated lines and what follows the last newline. */
  datatype Text = Text(lines: seq<string>, partial: string)

  function Cut(s: string): Text {
    if s == "" then Text([], "")
    else
      var t := Cut(s[..|s| - 1]);
      var c := s[|s| - 1];
      if c == '\n' then Text(t.lines + [t.partial], "") else Text(t.lines, t.partial + [c])
  }

  function Unlines(lines: seq<string>): string {
    if lines == [] then "" else Unlines(lines[..|lines| - 1]) + lines[|lines| - 1] + "\n"
  }

  ghost predicate OneLine(s: string) { '\n' !in s }

  ghost predicate Lines(t: Text) {
    OneLine(t.partial) && forall i :: 0 <= i < |t.lines| ==> OneLine(t.lines[i])
  }

  /** A cut loses nothing, and it is the only one with no newline inside a line. */
  lemma {:induction false} CutIsExact(s: string)
    ensures Lines(Cut(s))
    ensures Unlines(Cut(s).lines) + Cut(s).partial == s
    decreases |s|
  {
    if s != "" {
      var front, c := s[..|s| - 1], s[|s| - 1];
      var t := Cut(front);
      CutIsExact(front);
      assert s == front + [c];
      if c == '\n' {
        assert (t.lines + [t.partial])[..|t.lines|] == t.lines;
        assert Unlines(Cut(s).lines) + "" == front + "\n";
      } else {
        assert Unlines(t.lines) + (t.partial + [c]) == (Unlines(t.lines) + t.partial) + [c];
      }
    }
  }

  lemma {:induction false} CutIsUnique(t: Text)
    requires Lines(t)
    ensures Cut(Unlines(t.lines) + t.partial) == t
    decreases |t.lines|
  {
    if t.lines == [] {
      CutFeed("", t.partial);
      assert "" + t.partial == t.partial;
    } else {
      var n := |t.lines| - 1;
      var before := Text(t.lines[..n], t.lines[n]);
      CutIsUnique(before);
      var s := Unlines(before.lines) + before.partial;
      CutStep(s, '\n');
      assert before.lines + [before.partial] == t.lines;
      CutFeed(s + "\n", t.partial);
    }
  }

  lemma CutStep(s: string, c: char)
    ensures var t := Cut(s);
            Cut(s + [c]) == if c == '\n' then Text(t.lines + [t.partial], "") else Text(t.lines, t.partial + [c])
  {
    assert (s + [c])[..|s|] == s;
  }

  lemma {:induction false} CutFeed(s: string, more: string)
    requires OneLine(more)
    ensures Cut(s + more) == Text(Cut(s).lines, Cut(s).partial + more)
    decreases |more|
  {
    var t := Cut(s);
    if more == "" {
      assert s + more == s && t.partial + more == t.partial;
    } else {
      var front, c := more[..|more| - 1], more[|more| - 1];
      assert more == front + [c] && c in more;
      calc {
        Cut(s + more);
        { assert s + more == (s + front) + [c]; }
        Cut((s + front) + [c]);
        { CutStep(s + front, c); CutFeed(s, front); }
        Text(t.lines, (t.partial + front) + [c]);
        { Regroup(t.partial, front, [c]); }
        Text(t.lines, t.partial + more);
      }
    }
  }

  /** Without trailing carriage returns. */
  function Trimmed(line: string): (r: string)
    ensures r <= line && (r != "" ==> r[|r| - 1] != '\r')
    ensures forall i :: |r| <= i < |line| ==> line[i] == '\r'
  {
    if line != "" && line[|line| - 1] == '\r' then Trimmed(line[..|line| - 1]) else line
  }

  function TrimmedLines(lines: seq<string>): seq<string> {
    seq(|lines|, i requires 0 <= i < |lines| => Trimmed(lines[i]))
  }

  function Joined(lines: seq<string>): string {
    if |lines| == 0 then "" else if |lines| == 1 then lines[0]
    else Joined(lines[..|lines| - 1]) + "\n" + lines[|lines| - 1]
  }

  lemma LineEnds(s: string, more: string)
    requires OneLine(more)
    ensures var t := Cut(s); var after := Cut(s + more + "\n");
            && after.partial == ""
            && TrimmedLines(after.lines) == TrimmedLines(t.lines) + [Trimmed(t.partial + more)]
  {
    CutFeed(s, more);
    CutStep(s + more, '\n');
  }

  /** The last n lines of `s` and an unterminated one, as the tail shows them. */
  function Shown(s: string, n: nat): seq<string> {
    var t := Cut(s);
    Last(TrimmedLines(t.lines), n) + if t.partial == "" then [] else [t.partial]
  }

  lemma {:induction false} JoinedLines(lines: seq<string>, last: string)
    ensures Joined(lines + [last]) == Unlines(lines) + last
    decreases |lines|
  {
    var all := lines + [last];
    if lines == [] {
      assert all[0] == last && Unlines(lines) + last == last;
    } else {
      var n := |lines| - 1;
      assert all[..|all| - 1] == lines == lines[..n] + [lines[n]];
      JoinedLines(lines[..n], lines[n]);
    }
  }

  lemma {:induction false} UnlinesAppend(a: seq<string>, b: seq<string>)
    ensures Unlines(a + b) == Unlines(a) + Unlines(b)
    decreases |b|
  {
    if b == [] {
      assert a + b == a && Unlines(a) + "" == Unlines(a);
    } else {
      var n := |b| - 1;
      assert (a + b)[..|a + b| - 1] == a + b[..n];
      UnlinesAppend(a, b[..n]);
      assert Unlines(a) + Unlines(b[..n]) + b[n] + "\n" == Unlines(a) + (Unlines(b[..n]) + b[n] + "\n");
    }
  }

  lemma {:induction false} UnlinesHasLines(lines: seq<string>, i: nat)
    requires i < |lines|
    ensures forall c :: c in lines[i] ==> c in Unlines(lines)
    decreases |lines|
  {
    var n := |lines| - 1;
    if i < n { UnlinesHasLines(lines[..n], i); }
  }

  lemma NothingTrimmed(lines: seq<string>)
    requires '\r' !in Unlines(lines)
    ensures TrimmedLines(lines) == lines
  {
    forall i | 0 <= i < |lines| ensures Trimmed(lines[i]) == lines[i] {
      UnlinesHasLines(lines, i);
    }
  }

  function Dropped(lines: seq<string>, n: nat): seq<string> {
    if |lines| <= n then [] else lines[..|lines| - n]
  }

  function Ending(t: Text): string {
    if t.lines != [] && t.partial == "" then "\n" else ""
  }

  lemma TailOfText(t: Text, n: nat)
    requires n > 0
    ensures var kept := Last(t.lines, n) + if t.partial == "" then [] else [t.partial];
            Unlines(t.lines) + t.partial == Unlines(Dropped(t.lines, n)) + Joined(kept) + Ending(t)
  {
    var dropped, last := Dropped(t.lines, n), Last(t.lines, n);
    var kept := last + if t.partial == "" then [] else [t.partial];
    calc {
      Unlines(t.lines) + t.partial;
      { assert dropped + last == t.lines; UnlinesAppend(dropped, last); }
      (Unlines(dropped) + Unlines(last)) + t.partial;
      { Regroup(Unlines(dropped), Unlines(last), t.partial); }
      Unlines(dropped) + (Unlines(last) + t.partial);
      { TailOf(last, t.partial); }
      Unlines(dropped) + (Joined(kept) + Ending(t));
      { Regroup(Unlines(dropped), Joined(kept), Ending(t)); }
      (Unlines(dropped) + Joined(kept)) + Ending(t);
    }
  }

  /** Output without carriage returns is shown verbatim from the start of its last n lines, short
      of a final newline. */
  lemma TailIsVerbatim(s: string, n: nat)
    requires n > 0 && '\r' !in s
    ensures s == Unlines(Dropped(Cut(s).lines, n)) + Joined(Shown(s, n)) + Ending(Cut(s))
  {
    CutIsExact(s);
    NothingTrimmed(Cut(s).lines);
    TailOfText(Cut(s), n);
  }

  /** The same lines, each ended by a carriage return and a newline. */
  function WithReturns(lines: seq<string>): (out: seq<string>)
    ensures |out| == |lines|
  {
    seq(|lines|, i requires 0 <= i < |lines| => lines[i] + "\r")
  }

  lemma TrimmedReturn(line: string)
    ensures Trimmed(line + "\r") == Trimmed(line)
  {
    assert (line + "\r")[..|line|] == line;
  }

  /** Output that ends its lines the other way is shown the same. */
  lemma ReturnsAreDropped(t: Text, n: nat)
    requires Lines(t)
    ensures Shown(Unlines(WithReturns(t.lines)) + t.partial, n) == Shown(Unlines(t.lines) + t.partial, n)
  {
    var t' := Text(WithReturns(t.lines), t.partial);
    CutIsUnique(t);
    CutIsUnique(t');
    forall i | 0 <= i < |t.lines| ensures Trimmed(t'.lines[i]) == Trimmed(t.lines[i]) { TrimmedReturn(t.lines[i]); }
    assert TrimmedLines(t'.lines) == TrimmedLines(t.lines);
  }

  lemma TailOf(kept: seq<string>, partial: string)
    ensures Unlines(kept) + partial ==
            Joined(kept + if partial == "" then [] else [partial]) + if kept != [] && partial == "" then "\n" else ""
  {
    if partial != "" {
      JoinedLines(kept, partial);
    } else if kept != [] {
      var k := |kept| - 1;
      JoinedLines(kept[..k], kept[k]);
      assert kept[..k] + [kept[k]] == kept == kept + [];
    }
  }

  lemma Regroup(a: string, b: string, c: string)
    ensures (a + b) + c == a + (b + c)
  {}

  method IndexNewline(s: string) returns (i: int)
    ensures i < 0 ==> OneLine(s)
    ensures i >= 0 ==> i < |s| && s[i] == '\n' && OneLine(s[..i])
  {
    i := 0;
    while i < |s|
      invariant 0 <= i <= |s| && OneLine(s[..i])
    {
      if s[i] == '\n' { return; }
      i := i + 1;
    }
    assert s[..|s|] == s;
    return -1;
  }

  lemma Onward(before: string, rest: string, i: nat)
    requires i < |rest| && rest[i] == '\n'
    ensures (before + rest[..i] + "\n") + rest[i + 1..] == before + rest
  {
    assert rest == rest[..i] + "\n" + rest[i + 1..];
  }

  class TailBuffer {
    const lines: array<string>
    var next: nat
    var filled: bool
    var partial: string
    ghost var history: string
    ghost var complete: seq<string> // every line ended so far

    ghost predicate Valid()
      reads this, lines
    {
      && lines.Length > 0
      && Cut(history).partial == partial && TrimmedLines(Cut(history).lines) == complete
      && Holds(lines[..], next, filled, complete)
    }

    constructor (n: int)
      ensures Valid() && fresh(lines) && lines.Length == (if n < 1 then 1 else n) && history == ""
    {
      lines := new string[if n < 1 then 1 else n](_ => "");
      next, filled, partial, history, complete := 0, false, "", "", [];
    }

    method Push(line: string)
      requires lines.Length > 0 && Holds(lines[..], next, filled, complete)
      modifies this`next, this`filled, this`complete, lines
      ensures Holds(lines[..], next, filled, complete) && complete == old(complete) + [line]
    {
      RingStep(lines[..], next, filled, [line], complete);
      PutOne(lines[..], next, line);
      ghost var ring := lines[..];
      lines[next] := line;
      assert lines[..] == ring[next := line];
      next := Around(next, 1, lines.Length);
      if next == 0 { filled := true; }
      complete := complete + [line];
    }

    method Feed(s: string)
      requires Valid() && OneLine(s)
      modifies this`partial, this`history
      ensures Valid() && history == old(history) + s
    {
      CutFeed(history, s);
      partial := partial + s;
      history := history + s;
    }

    /** Ends the current line with `s`. */
    method EndLine(s: string)
      requires Valid() && OneLine(s)
      modifies this, lines
      ensures Valid() && history == old(history) + s + "\n"
    {
      LineEnds(history, s);
      partial := partial + s;
      Push(Trimmed(partial));
      partial := "";
      history := history + s + "\n";
    }

    method Write(p: string) returns (n: nat)
      requires Valid()
      modifies this, lines
      ensures Valid() && n == |p| && history == old(history) + p
    {
      var rest := p;
      var done := false;
      while !done
        invariant Valid() && history + rest == old(history) + p && (done ==> rest == "")
        decreases if done then 0 else |rest| + 1
      {
        done, rest := Step(rest);
      }
      assert history + "" == history;
      return |p|;
    }

    /** Takes the text up to the first newline, or all of it. */
    method Step(rest: string) returns (done: bool, left: string)
      requires Valid()
      modifies this, lines
      ensures Valid() && history + left == old(history) + rest
      ensures if done then left == "" else |left| < |rest|
    {
      var i := IndexNewline(rest);
      if i < 0 {
        Feed(rest);
        assert history + "" == history;
        return true, "";
      }
      Onward(history, rest, i);
      EndLine(rest[..i]);
      return false, rest[i + 1..];
    }

    method Retained() returns (out: seq<string>)
      requires Valid()
      ensures out == Last(complete, lines.Length)
    {
      out := [];
      if filled { out := out + lines[next..]; }
      out := out + lines[..next];
    }

    /** The retained lines and the unterminated one, separated by newlines. */
    method String() returns (s: string)
      requires Valid()
      ensures s == Joined(Shown(history, lines.Length))
    {
      var out := Retained();
      if partial != "" { out := out + [partial]; }
      assert out == Shown(history, lines.Length);
      return Joined(out);
    }
  }
}
