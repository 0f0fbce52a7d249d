/**
 * The text commands the GUI writes to the device (`_send`, gui.py:417-419,
 * on top of `SerialManager.send`, gui.py:95-100): `KEY:VALUE`, one per line.
 * How a float is spelled (`f"{x:.4f}"` and `str(x)`) is a parameter, since
 * binary floating point is not modelled; everything else is concrete.
 */
module Commands {
  import opened Options
  import opened Text
  import opened ProfileStore
  import opened Transport

  /** The value part of a command, by how the source formats it. */
  datatype Arg =
    | Int(i: int)        // f"{int(v)}"
    | Fixed4(x: real)    // f"{float(v):.4f}"
    | Shown(n: Num)      // f"{p[key]}" on a stored number
    | Word(w: string)    // a literal word such as a weapon name

  datatype Command = Command(key: string, arg: Arg)

  /** The spellings of a float: with four decimals, and Python's `repr`. */
  datatype Format = Format(fixed4: real -> string, repr: real -> string)

  /** No whitespace anywhere in `s`. */
  predicate Token(s: string) {
    forall k :: 0 <= k < |s| ==> !IsSpace(s[k])
  }

  /** Both spellings of a float are free of whitespace, as Python's are. */
  ghost predicate Sound(fmt: Format) {
    forall x :: Token(fmt.fixed4(x)) && Token(fmt.repr(x))
  }

  function ArgText(a: Arg, fmt: Format): string {
    match a
    case Int(i) => IntToDecimal(i)
    case Fixed4(x) => fmt.fixed4(x)
    case Shown(n) => if n.I? then IntToDecimal(n.i) else fmt.repr(n.x)
    case Word(w) => w
  }

  /** A key the receiver can split off: non-empty, no whitespace, no colon. */
  predicate KeyText(k: string) {
    k != [] && Token(k) && forall j :: 0 <= j < |k| ==> k[j] != ':'
  }

  /** A command whose text survives the line framing unchanged. */
  predicate Proper(c: Command) {
    KeyText(c.key) && (c.arg.Word? ==> Token(c.arg.w))
  }

  /** Reading a command line back: the text before the first colon, and the rest. */
  function Unrender(t: string): (string, string) {
    var k := FirstIndex(t, ':');
    if k < |t| then (t[..k], t[k + 1..]) else (t, [])
  }

  lemma ArgToken(a: Arg, fmt: Format)
    requires Sound(fmt) && (a.Word? ==> Token(a.w))
    ensures Token(ArgText(a, fmt))
  {
    match a
    case Int(i) => IntToDecimalNoSpace(i);
    case Fixed4(x) =>
    case Shown(n) => if n.I? { IntToDecimalNoSpace(n.i); }
    case Word(w) =>
  }

  /** A key without a colon is split off again at the colon that follows it. */
  lemma UnrenderJoin(k: string, a: string)
    requires KeyText(k)
    ensures Unrender(k + ":" + a) == (k, a)
  {
    var t := k + ":" + a;
    assert forall j :: 0 <= j < |k| ==> t[j] == k[j];
    assert t[|k|] == ':';
    assert FirstIndex(t, ':') == |k|;
    assert t[..|k|] == k && t[|k| + 1..] == a;
  }

  /** Two whitespace-free parts joined by a colon are a whitespace-free line. */
  lemma JoinClean(k: string, a: string)
    requires Token(k) && Token(a)
    ensures NoNewline(k + ":" + a) && Strip(k + ":" + a) == k + ":" + a
  {
    var t := k + ":" + a;
    assert forall j :: 0 <= j < |k| ==> t[j] == k[j];
    assert forall j :: |k| + 1 <= j < |t| ==> t[j] == a[j - |k| - 1];
    assert Token(t);
    StripStripped(t);
  }

  /** `f"{key}:{value}"`. */
  function Render(c: Command, fmt: Format): (t: string)
    ensures KeyText(c.key) ==> Unrender(t) == (c.key, ArgText(c.arg, fmt))
    ensures Proper(c) && Sound(fmt) ==> t != [] && NoNewline(t) && Strip(t) == t
  {
    var a := ArgText(c.arg, fmt);
    assert KeyText(c.key) ==> Unrender(c.key + ":" + a) == (c.key, a) by {
      if KeyText(c.key) { UnrenderJoin(c.key, a); }
    }
    assert Proper(c) && Sound(fmt) ==> NoNewline(c.key + ":" + a) && Strip(c.key + ":" + a) == c.key + ":" + a by {
      if Proper(c) && Sound(fmt) {
        ArgToken(c.arg, fmt);
        JoinClean(c.key, a);
      }
    }
    c.key + ":" + a
  }

  function Texts(cmds: seq<Command>, fmt: Format): (ts: seq<string>)
    ensures |ts| == |cmds|
    ensures forall i :: 0 <= i < |cmds| ==> ts[i] == Render(cmds[i], fmt)
  {
    if cmds == [] then [] else [Render(cmds[0], fmt)] + Texts(cmds[1..], fmt)
  }

  /** The bytes a sequence of `_send` calls puts on the wire (nothing while the port is closed). */
  function Wire(open: bool, cmds: seq<Command>, fmt: Format): string {
    Transmit(open, Texts(cmds, fmt))
  }

  /**
   * The device's line reader gets back exactly the commands written, in
   * order, and each splits into the key and value that were sent.
   */
  lemma WireFramed(cmds: seq<Command>, fmt: Format)
    requires Sound(fmt)
    requires forall i :: 0 <= i < |cmds| ==> Proper(cmds[i])
    ensures Frame(Wire(true, cmds, fmt)).rest == []
    ensures |Frame(Wire(true, cmds, fmt)).lines| == |cmds|
    ensures forall i :: 0 <= i < |cmds| ==>
      Unrender(Frame(Wire(true, cmds, fmt)).lines[i]) == (cmds[i].key, ArgText(cmds[i].arg, fmt))
  {
    var ts := Texts(cmds, fmt);
    TransmitFramed(ts);
  }

  /** An integer value reads back, through `float`, as the number that was sent. */
  lemma IntArgReads(i: int, fmt: Format)
    ensures ParseNumber(ArgText(Int(i), fmt)) == Some(i as real)
  {
    IntToDecimalRoundTrip(i);
  }
}
