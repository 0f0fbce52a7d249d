/**
 * The serial transport of `SerialManager`: the reader loop that frames the
 * incoming byte stream into stripped, non-empty lines (gui.py `_loop`) and the
 * writer that terminates every outgoing text with a newline (gui.py `send`).
 * The port, the reader thread and its sleeps are outside the model: the reads
 * are given as the sequence of chunks `read(256)` returned, an empty chunk
 * standing for a read that timed out.
 */
module Transport {
  import opened Text

  // ------------------------------------------------------------ splitting

  /** Each piece followed by a newline, in order. */
  function Flatten(pieces: seq<string>): string {
    if pieces == [] then [] else pieces[0] + "\n" + Flatten(pieces[1..])
  }

  predicate AllNoNewline(pieces: seq<string>) {
    forall i :: 0 <= i < |pieces| ==> NoNewline(pieces[i])
  }

  /** A buffer cut at every newline: the complete pieces and the unterminated rest. */
  datatype Parts = Parts(pieces: seq<string>, rest: string)

  /**
   * Repeated `buf.partition(b"\n")` while the buffer holds a newline: each
   * step splits off the text before the first newline and drops the newline.
   */
  function Split(buf: string): (r: Parts)
    ensures AllNoNewline(r.pieces) && NoNewline(r.rest)
    decreases |buf|
  {
    var k := FirstIndex(buf, '\n');
    if k == |buf| then Parts([], buf)
    else
      var tail := Split(buf[k + 1..]);
      var pieces := [buf[..k]] + tail.pieces;
      assert forall i :: 0 < i < |pieces| ==> pieces[i] == tail.pieces[i - 1];
      Parts(pieces, tail.rest)
  }

  /** Nothing is lost or reordered: the pieces, each with its newline, then the rest, are the buffer. */
  lemma {:induction false} SplitJoins(buf: string)
    ensures Flatten(Split(buf).pieces) + Split(buf).rest == buf
    decreases |buf|
  {
    var k := FirstIndex(buf, '\n');
    if k < |buf| {
      SplitJoins(buf[k + 1..]);
      SplitStep(buf, k, Split(buf[k + 1..]));
    }
  }

  /** One `partition` step, seen from the flattened side. */
  lemma SplitStep(buf: string, k: nat, tail: Parts)
    requires k < |buf| && buf[k] == '\n'
    requires forall j :: 0 <= j < k ==> buf[j] != '\n'
    requires Flatten(tail.pieces) + tail.rest == buf[k + 1..]
    requires AllNoNewline(tail.pieces) && NoNewline(tail.rest)
    ensures Flatten([buf[..k]] + tail.pieces) + tail.rest == buf
    ensures AllNoNewline([buf[..k]] + tail.pieces)
  {
    var ps := [buf[..k]] + tail.pieces;
    assert ps[0] == buf[..k];
    assert ps[1..] == tail.pieces;
    assert Flatten(ps) == buf[..k] + "\n" + Flatten(tail.pieces);
    calc {
      Flatten(ps) + tail.rest;
      buf[..k] + "\n" + (Flatten(tail.pieces) + tail.rest);
      buf[..k] + "\n" + buf[k + 1..];
      buf;
    }
    forall i | 0 <= i < |ps| ensures NoNewline(ps[i]) {
      if i > 0 { assert ps[i] == tail.pieces[i - 1]; }
    }
  }

  lemma {:induction false} FlattenAppend(x: seq<string>, y: seq<string>)
    ensures Flatten(x + y) == Flatten(x) + Flatten(y)
    decreases |x|
  {
    if x != [] {
      assert (x + y)[1..] == x[1..] + y;
      FlattenAppend(x[1..], y);
    } else {
      assert x + y == y;
    }
  }

  /** Newline-free pieces and rest are recovered exactly from the bytes they flatten to. */
  lemma {:induction false} SplitUnique(pieces: seq<string>, rest: string)
    requires AllNoNewline(pieces) && NoNewline(rest)
    ensures Split(Flatten(pieces) + rest) == Parts(pieces, rest)
    decreases |pieces|
  {
    var buf := Flatten(pieces) + rest;
    if pieces == [] {
      assert FirstIndex(buf, '\n') == |buf|;
    } else {
      var p := pieces[0];
      var after := Flatten(pieces[1..]) + rest;
      assert buf == p + "\n" + after;
      assert buf[|p|] == '\n';
      assert forall j :: 0 <= j < |p| ==> buf[j] == p[j];
      assert FirstIndex(buf, '\n') == |p|;
      assert buf[..|p|] == p;
      assert buf[|p| + 1..] == after;
      SplitUnique(pieces[1..], rest);
      assert [p] + pieces[1..] == pieces;
    }
  }

  /**
   * Where the buffer is cut does not depend on how the bytes were chunked:
   * splitting `a + b` is splitting `a`, then splitting `a`'s rest with `b`.
   */
  lemma SplitAppend(a: string, b: string)
    ensures Split(a + b).pieces == Split(a).pieces + Split(Split(a).rest + b).pieces
    ensures Split(a + b).rest == Split(Split(a).rest + b).rest
  {
    var first := Split(a);
    var second := Split(first.rest + b);
    JoinsAppend(a, b);
    AllNoNewlineAppend(first.pieces, second.pieces);
    SplitUnique(first.pieces + second.pieces, second.rest);
  }

  /** The pieces of `a`, then those of `a`'s rest with `b`, flatten back to `a + b`. */
  lemma JoinsAppend(a: string, b: string)
    ensures var first := Split(a);
      var second := Split(first.rest + b);
      Flatten(first.pieces + second.pieces) + second.rest == a + b
  {
    var first := Split(a);
    var second := Split(first.rest + b);
    SplitJoins(a);
    SplitJoins(first.rest + b);
    FlattenAppend(first.pieces, second.pieces);
    JoinAlgebra(Flatten(first.pieces), Flatten(second.pieces), first.rest, second.rest, a, b);
  }

  lemma JoinAlgebra(f1: string, f2: string, r1: string, r2: string, a: string, b: string)
    requires f1 + r1 == a && f2 + r2 == r1 + b
    ensures (f1 + f2) + r2 == a + b
  {
    calc {
      (f1 + f2) + r2;
      f1 + (f2 + r2);
      f1 + (r1 + b);
      (f1 + r1) + b;
    }
  }

  lemma AllNoNewlineAppend(x: seq<string>, y: seq<string>)
    requires AllNoNewline(x) && AllNoNewline(y)
    ensures AllNoNewline(x + y)
  {
    forall i | 0 <= i < |x + y| ensures NoNewline((x + y)[i]) {
      if i < |x| { assert (x + y)[i] == x[i]; } else { assert (x + y)[i] == y[i - |x|]; }
    }
  }

  // -------------------------------------------------------------- framing

  /** The pieces the reader hands on: each stripped, the empty ones dropped, in wire order. */
  function Deliver(pieces: seq<string>): (lines: seq<string>)
    ensures |lines| <= |pieces|
    ensures forall i :: 0 <= i < |lines| ==> lines[i] != [] && IsStripped(lines[i])
  {
    if pieces == [] then []
    else
      var s := Strip(pieces[0]);
      var tail := Deliver(pieces[1..]);
      if s != [] then [s] + tail else tail
  }

  lemma {:induction false} DeliverNoNewline(pieces: seq<string>)
    requires AllNoNewline(pieces)
    ensures AllNoNewline(Deliver(pieces))
  {
    if pieces != [] {
      StripKeepsNoNewline(pieces[0]);
      DeliverNoNewline(pieces[1..]);
    }
  }

  lemma {:induction false} DeliverAppend(x: seq<string>, y: seq<string>)
    ensures Deliver(x + y) == Deliver(x) + Deliver(y)
    decreases |x|
  {
    if x == [] {
      assert x + y == y;
    } else {
      assert (x + y)[1..] == x[1..] + y;
      DeliverAppend(x[1..], y);
    }
  }

  /** Lines handed on, and what stays in the buffer. */
  datatype Framed = Framed(lines: seq<string>, rest: string)

  /** The reader's view of a buffer: the lines it delivers and what it keeps. */
  function Frame(buf: string): (r: Framed)
    ensures NoNewline(r.rest)
    ensures forall i :: 0 <= i < |r.lines| ==> r.lines[i] != [] && IsStripped(r.lines[i]) && NoNewline(r.lines[i])
  {
    var parts := Split(buf);
    DeliverNoNewline(parts.pieces);
    Framed(Deliver(parts.pieces), parts.rest)
  }

  /** A buffer without a newline is kept whole and delivers nothing. */
  lemma FrameNoNewline(buf: string)
    requires NoNewline(buf)
    ensures Frame(buf) == Framed([], buf)
  {
    assert FirstIndex(buf, '\n') == |buf|;
  }

  /** Chunking is invisible: framing `a + b` is framing `a`, then its rest with `b`. */
  lemma FrameAppend(a: string, b: string)
    ensures Frame(a + b).lines == Frame(a).lines + Frame(Frame(a).rest + b).lines
    ensures Frame(a + b).rest == Frame(Frame(a).rest + b).rest
  {
    SplitAppend(a, b);
    DeliverAppend(Split(a).pieces, Split(Split(a).rest + b).pieces);
  }

  /** `Split` unfolded once. */
  lemma SplitAt(buf: string)
    requires FirstIndex(buf, '\n') < |buf|
    ensures var k := FirstIndex(buf, '\n');
      Split(buf) == Parts([buf[..k]] + Split(buf[k + 1..]).pieces, Split(buf[k + 1..]).rest)
  {
  }

  /** `Deliver` unfolded once. */
  lemma DeliverCons(piece: string, pieces: seq<string>)
    ensures Deliver([piece] + pieces)
         == if Strip(piece) != [] then [Strip(piece)] + Deliver(pieces) else Deliver(pieces)
  {
    assert ([piece] + pieces)[0] == piece && ([piece] + pieces)[1..] == pieces;
  }

  /** One partition at the first newline: the stripped line, when non-empty, then the rest of the buffer. */
  lemma FrameStep(buf: string)
    requires FirstIndex(buf, '\n') < |buf|
    ensures var k := FirstIndex(buf, '\n');
      var s := Strip(buf[..k]);
      && Frame(buf).lines == (if s != [] then [s] + Frame(buf[k + 1..]).lines else Frame(buf[k + 1..]).lines)
      && Frame(buf).rest == Frame(buf[k + 1..]).rest
  {
    var k := FirstIndex(buf, '\n');
    SplitAt(buf);
    DeliverCons(buf[..k], Split(buf[k + 1..]).pieces);
  }

  /** The lines already handed on, then those the buffer still holds, are the lines of `buf`. */
  predicate DrainedSoFar(buf: string, lines: seq<string>, rest: string) {
    lines + Frame(rest).lines == Frame(buf).lines && Frame(rest).rest == Frame(buf).rest
  }

  /** One turn of the drain loop keeps `DrainedSoFar`. */
  lemma DrainStep(buf: string, lines: seq<string>, rest: string)
    requires DrainedSoFar(buf, lines, rest) && FirstIndex(rest, '\n') < |rest|
    ensures var k := FirstIndex(rest, '\n');
      var s := Strip(rest[..k]);
      DrainedSoFar(buf, if s != [] then lines + [s] else lines, rest[k + 1..])
  {
    var k := FirstIndex(rest, '\n');
    var s := Strip(rest[..k]);
    FrameStep(rest);
    if s != [] {
      AppendAssoc(lines, [s], Frame(rest[k + 1..]).lines);
    }
  }

  lemma AppendAssoc<T>(x: seq<T>, y: seq<T>, z: seq<T>)
    ensures (x + y) + z == x + (y + z)
  {
  }

  /**
   * The inner `while b"\n" in buf` loop of the reader: partition at the first
   * newline, strip the line, hand it on when non-empty.
   */
  method Drain(buf: string) returns (lines: seq<string>, rest: string)
    ensures lines == Frame(buf).lines && rest == Frame(buf).rest
    ensures NoNewline(rest)
  {
    lines, rest := [], buf;
    assert [] + Frame(buf).lines == Frame(buf).lines;
    while FirstIndex(rest, '\n') < |rest|
      invariant DrainedSoFar(buf, lines, rest)
      decreases |rest|
    {
      var k := FirstIndex(rest, '\n');
      DrainStep(buf, lines, rest);
      var s := Strip(rest[..k]);
      if s != [] {
        lines := lines + [s];
      }
      rest := rest[k + 1..];
    }
    FrameDone(buf, lines, rest);
  }

  /** When no newline is left, the lines handed on are all of them. */
  lemma FrameDone(buf: string, lines: seq<string>, rest: string)
    requires DrainedSoFar(buf, lines, rest) && FirstIndex(rest, '\n') == |rest|
    ensures lines == Frame(buf).lines && rest == Frame(buf).rest && NoNewline(rest)
  {
    FrameNoNewline(rest);
    assert lines + [] == lines;
  }

  /** All chunks read so far, in order. */
  function Concat(chunks: seq<string>): string {
    if chunks == [] then [] else Concat(chunks[..|chunks| - 1]) + chunks[|chunks| - 1]
  }

  lemma ConcatPrefix(chunks: seq<string>, i: nat)
    requires i < |chunks|
    ensures Concat(chunks[..i + 1]) == Concat(chunks[..i]) + chunks[i]
  {
    assert chunks[..i + 1][..i] == chunks[..i];
  }

  /** The reader's state after the first `i` chunks. */
  predicate ReadSoFar(chunks: seq<string>, i: nat, delivered: seq<string>, buf: string)
    requires i <= |chunks|
  {
    delivered == Frame(Concat(chunks[..i])).lines && buf == Frame(Concat(chunks[..i])).rest
  }

  /** Reading a non-empty chunk: append it and drain. */
  lemma ReadStep(chunks: seq<string>, i: nat, delivered: seq<string>, buf: string)
    requires i < |chunks| && ReadSoFar(chunks, i, delivered, buf)
    ensures ReadSoFar(chunks, i + 1, delivered + Frame(buf + chunks[i]).lines, Frame(buf + chunks[i]).rest)
  {
    ConcatPrefix(chunks, i);
    FrameAppend(Concat(chunks[..i]), chunks[i]);
  }

  /** A read that timed out changes nothing. */
  lemma ReadNothing(chunks: seq<string>, i: nat, delivered: seq<string>, buf: string)
    requires i < |chunks| && chunks[i] == [] && ReadSoFar(chunks, i, delivered, buf)
    ensures ReadSoFar(chunks, i + 1, delivered, buf)
  {
    ReadStep(chunks, i, delivered, buf);
    assert buf + chunks[i] == buf;
    FrameNoNewline(buf);
    assert delivered + [] == delivered;
  }

  /**
   * The reader loop over a sequence of reads: non-empty chunks are appended to
   * the buffer and drained. The lines handed on are exactly those of the whole
   * stream framed at once, and the buffer keeps its unterminated tail.
   */
  method ReaderLoop(chunks: seq<string>) returns (delivered: seq<string>, buf: string)
    ensures delivered == Frame(Concat(chunks)).lines
    ensures buf == Frame(Concat(chunks)).rest
    ensures NoNewline(buf)
  {
    delivered, buf := [], [];
    FrameNoNewline([]);
    assert chunks[..0] == [];
    var i := 0;
    while i < |chunks|
      invariant 0 <= i <= |chunks|
      invariant ReadSoFar(chunks, i, delivered, buf)
    {
      var chunk := chunks[i];
      if chunk != [] {
        ReadStep(chunks, i, delivered, buf);
        var lines;
        lines, buf := Drain(buf + chunk);
        delivered := delivered + lines;
      } else {
        ReadNothing(chunks, i, delivered, buf);
      }
      i := i + 1;
    }
    assert chunks[..i] == chunks;
  }

  // -------------------------------------------------------------- writing

  predicate EndsWithNewline(text: string) {
    |text| > 0 && text[|text| - 1] == '\n'
  }

  /** `text` with a newline appended unless it already ends with one. */
  function Terminated(text: string): (r: string)
    ensures EndsWithNewline(r)
    ensures |text| <= |r| <= |text| + 1 && r[..|text|] == text
    ensures EndsWithNewline(text) <==> r == text
  {
    if EndsWithNewline(text) then text else text + "\n"
  }

  /** The bytes `send` writes: nothing when the port is not open. */
  function Send(open: bool, text: string): (wire: string)
    ensures !open <==> wire == []
    ensures open ==> EndsWithNewline(wire) && |text| <= |wire| <= |text| + 1 && wire[..|text|] == text
  {
    if open then Terminated(text) else []
  }

  /** The bytes written for a sequence of texts, one `send` each. */
  function Transmit(open: bool, texts: seq<string>): string {
    if texts == [] then [] else Send(open, texts[0]) + Transmit(open, texts[1..])
  }

  /** A closed port writes nothing however many texts are sent. */
  lemma {:induction false} TransmitClosed(texts: seq<string>)
    ensures Transmit(false, texts) == []
  {
    if texts != [] {
      TransmitClosed(texts[1..]);
    }
  }

  /**
   * Round trip through the wire: texts that hold no newline and are already
   * stripped and non-empty, sent over an open port, are framed back by a reader
   * as exactly those lines, in order, with nothing left in the buffer.
   */
  lemma TransmitFramed(texts: seq<string>)
    requires forall i :: 0 <= i < |texts| ==> texts[i] != [] && NoNewline(texts[i]) && Strip(texts[i]) == texts[i]
    ensures Frame(Transmit(true, texts)) == Framed(texts, [])
  {
    TransmitIsFlatten(texts);
    assert Transmit(true, texts) == Flatten(texts) + [];
    SplitUnique(texts, []);
    DeliverStripped(texts);
  }

  lemma {:induction false} TransmitIsFlatten(texts: seq<string>)
    requires AllNoNewline(texts)
    ensures Transmit(true, texts) == Flatten(texts)
  {
    if texts != [] {
      var t := texts[0];
      assert !EndsWithNewline(t) by {
        if |t| > 0 { assert t[|t| - 1] != '\n'; }
      }
      TransmitIsFlatten(texts[1..]);
    }
  }

  lemma {:induction false} DeliverStripped(texts: seq<string>)
    requires forall i :: 0 <= i < |texts| ==> texts[i] != [] && Strip(texts[i]) == texts[i]
    ensures Deliver(texts) == texts
  {
    if texts != [] {
      DeliverStripped(texts[1..]);
      assert [texts[0]] + texts[1..] == texts;
    }
  }
}
