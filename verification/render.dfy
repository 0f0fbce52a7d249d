/**
 * What the ordered scan finds on a line, stated as predicates on the
 * results of `Find`: the facts the round trip of a printed status line
 * passes from one step to the next.
 */
module ScanFacts {
  import opened Options
  import opened StatusParser

  /** The optional group read from `r` is `v`. */
  predicate GroupIs(r: Option<Hit>, v: Option<string>) {
    if v.Some? then r.Some? && r.value.value == v.value else r.None?
  }
  /** `r` is a hit at `at` capturing `value` and ending at `end`. */
  predicate IsHit(r: Option<Hit>, at: nat, value: string, end: nat) {
    r.Some? && r.value.at == at && r.value.value == value && r.value.end == end
  }
  /**
   * The marker, then the weapon ending at `we`, then `sens` tagged at `sa`
   * and ending at `se`, with `tbs` looked for in between.
   */
  predicate HeadRead(line: string, weapon: string, tbs: Option<string>, sens: string, we: nat, sa: nat, se: nat) {
    && TagAt(line, 0, "ST:")
    && IsHit(Find(line, 3, |line|, "W=", Word), 3, weapon, we)
    && IsHit(Find(line, we, |line|, "S=", Number), sa, sens, se)
    && GroupIs(Find(line, we, sa, "T=", Number), tbs)
  }
  /** The optional fields read back as `st` has them, each scanned from where the one before it ends. */
  predicate SlotsRead(line: string, from: nat, st: Status) {
    var a := Find(line, from, |line|, "A=", Number);
    var f := Find(line, Next(from, a), |line|, "F=", Number);
    var g := Find(line, Next(Next(from, a), f), |line|, "G=", Number);
    var sm := Find(line, Next(Next(Next(from, a), f), g), |line|, "SM=", Number);
    var c := Find(line, Next(Next(Next(Next(from, a), f), g), sm), |line|, "C=", Bit);
    var on := Find(line, Next(Next(Next(Next(Next(from, a), f), g), sm), c), |line|, "ON=", Bit);
    var att := Find(line, Next(Next(Next(Next(Next(Next(from, a), f), g), sm), c), on), |line|, "ATT=", Tail);
    && Group(a) == st.ads && Group(f) == st.fov && Group(g) == st.gain && Group(sm) == st.smth
    && Group(c) == st.crouch && Group(on) == st.on && Group(att) == st.att
  }
}

/**
 * The status line as the firmware prints it (gui.py:38-51 documents the
 * format `ST:W=<weapon> [T=..] S=.. [A=..] [F=..] [G=..] [SM=..] [C=0|1]
 * [ON=0|1] [ATT=..]`): every present field once, in the grammar's order,
 * one space apart. On such lines the ordered scan reads every field back,
 * so `ParseStatus` inverts `RenderStatus`.
 */
module StatusRender {
  import opened Options
  import opened ScanFacts
  import opened Text
  import opened StatusParser

  /** An optional field: its tag, the shape of its value, the value when sent. */
  datatype Slot = Slot(tag: string, shape: Shape, value: Option<string>)

  /** ` TAG=value`, a field after the separating space. */
  function Segment(tag: string, v: string): string {
    " " + tag + v
  }

  function SlotText(s: Slot): string {
    if s.value.Some? then Segment(s.tag, s.value.value) else []
  }

  /** The optional fields after `SENS`, in the grammar's order. */
  function Slots(st: Status): seq<Slot> {
    [Slot("A=", Number, st.ads), Slot("F=", Number, st.fov), Slot("G=", Number, st.gain),
     Slot("SM=", Number, st.smth), Slot("C=", Bit, st.crouch), Slot("ON=", Bit, st.on),
     Slot("ATT=", Tail, st.att)]
  }

  function Join(ss: seq<Slot>): string {
    if ss == [] then [] else SlotText(ss[0]) + Join(ss[1..])
  }

  /** The status line the firmware prints for `st`. */
  function RenderStatus(st: Status): string {
    HeadLine(st.weapon, st.tbs, st.sens) + Join(Slots(st))
  }

  /** A status the firmware can print: well-formed values and an attachment list without `=`. */
  predicate Printable(st: Status) {
    WellFormed(st) && (st.att.Some? ==> NoEquals(st.att.value))
  }

  predicate NoEquals(v: string) {
    forall k :: 0 <= k < |v| ==> v[k] != '='
  }

  // ------------------------------------------------------------ the tags

  /** Upper-case letters closed by `=`. */
  predicate GoodTag(tag: string) {
    && |tag| >= 2 && tag[|tag| - 1] == '='
    && forall k :: 0 <= k < |tag| - 1 ==> 'A' <= tag[k] <= 'Z'
  }

  /** The letter just before a tag's `=`. */
  function LastLetter(tag: string): char {
    if |tag| >= 2 then tag[|tag| - 2] else ' '
  }

  function Letters(ss: seq<Slot>): (r: seq<char>)
    ensures |r| == |ss|
    ensures forall j :: 0 <= j < |ss| ==> r[j] == LastLetter(ss[j].tag)
  {
    if ss == [] then [] else [LastLetter(ss[0].tag)] + Letters(ss[1..])
  }

  predicate GoodValue(s: Slot) {
    s.value.Some? ==>
      match s.shape
      case Number => IsNumberText(s.value.value)
      case Bit => IsBit(s.value.value)
      case Tail => NoEquals(s.value.value)
      case Word => false
  }

  /**
   * Fields the scan can tell apart: sound tags and values, only the last
   * field runs to the end of the line, and no two tags end in the same letter.
   */
  predicate GoodSlots(ss: seq<Slot>) {
    && (forall j :: 0 <= j < |ss| ==> GoodTag(ss[j].tag) && GoodValue(ss[j]))
    && (forall j :: 0 <= j < |ss| - 1 ==> ss[j].shape != Tail)
    && (forall i, j :: 0 <= i < j < |ss| ==> !SameLetter(LastLetter(ss[j].tag), LastLetter(ss[i].tag)))
  }

  /** Distinct upper-case letters never match, whatever the case folding. */
  lemma UpperDistinct(c: char, p: char)
    requires 'A' <= c <= 'Z' && 'A' <= p <= 'Z' && c != p
    ensures !SameLetter(c, p)
  {
  }

  /** The tags of the optional fields, and the letters that close them. */
  lemma SlotTags(st: Status)
    ensures forall j :: 0 <= j < |Slots(st)| ==> GoodTag(Slots(st)[j].tag) && LastLetter(Slots(st)[j].tag) == "AFGMCNT"[j]
  {
    var ss := Slots(st);
    forall j | 0 <= j < |ss| ensures GoodTag(ss[j].tag) && LastLetter(ss[j].tag) == "AFGMCNT"[j] {
    }
  }

  lemma SlotValues(st: Status)
    requires Printable(st)
    ensures forall j :: 0 <= j < |Slots(st)| ==> GoodValue(Slots(st)[j])
  {
    var ss := Slots(st);
    forall j | 0 <= j < |ss| ensures GoodValue(ss[j]) {
    }
  }

  lemma SlotsGood(st: Status)
    requires Printable(st)
    ensures GoodSlots(Slots(st))
  {
    SlotTags(st);
    SlotValues(st);
    SlotShapes(st);
    LettersDistinct();
    GoodByLetters(Slots(st), "AFGMCNT");
  }

  /** Only the last optional field, `ATT`, runs to the end of the line. */
  lemma SlotShapes(st: Status)
    ensures forall j :: 0 <= j < |Slots(st)| - 1 ==> Slots(st)[j].shape != Tail
  {
  }

  /** The closing letters of the optional tags are distinct capitals. */
  lemma LettersDistinct()
    ensures forall j :: 0 <= j < |"AFGMCNT"| ==> 'A' <= "AFGMCNT"[j] <= 'Z'
    ensures forall i, j :: 0 <= i < j < |"AFGMCNT"| ==> "AFGMCNT"[i] != "AFGMCNT"[j]
  {
  }

  /** Sound fields whose tags close with distinct capitals can be told apart. */
  lemma GoodByLetters(ss: seq<Slot>, last: string)
    requires |ss| == |last|
    requires forall j :: 0 <= j < |ss| ==> GoodTag(ss[j].tag) && LastLetter(ss[j].tag) == last[j]
    requires forall j :: 0 <= j < |ss| ==> GoodValue(ss[j])
    requires forall j :: 0 <= j < |ss| - 1 ==> ss[j].shape != Tail
    requires forall j :: 0 <= j < |last| ==> 'A' <= last[j] <= 'Z'
    requires forall i, j :: 0 <= i < j < |last| ==> last[i] != last[j]
    ensures GoodSlots(ss)
  {
    forall i, j | 0 <= i < j < |ss| ensures !SameLetter(LastLetter(ss[j].tag), LastLetter(ss[i].tag)) {
      UpperDistinct(last[j], last[i]);
    }
  }

  // ------------------------------------------------- where `=` can stand

  /** Every `=` in `s` follows a letter from `L`. */
  predicate EqAfter(s: string, L: seq<char>) {
    forall q :: 0 <= q < |s| && s[q] == '=' ==> 0 < q && s[q - 1] in L
  }

  lemma EqAfterAppend(a: string, b: string, La: seq<char>, Lb: seq<char>)
    requires EqAfter(a, La) && EqAfter(b, Lb)
    ensures EqAfter(a + b, La + Lb)
  {
    forall q | 0 <= q < |a + b| && (a + b)[q] == '=' ensures 0 < q && (a + b)[q - 1] in La + Lb {
      if q < |a| {
        assert a[q] == '=' && (a + b)[q - 1] == a[q - 1];
      } else {
        assert b[q - |a|] == '=';
        assert (a + b)[q - 1] == b[q - 1 - |a|];
      }
    }
  }

  lemma SlotEq(s: Slot)
    requires GoodTag(s.tag) && GoodValue(s)
    ensures EqAfter(SlotText(s), [LastLetter(s.tag)])
  {
    if s.value.Some? {
      var tag, v := s.tag, s.value.value;
      var seg := Segment(tag, v);
      assert NoEquals(v) by {
        if s.shape == Bit {
          assert v == "0" || v == "1";
        }
      }
      forall q | 0 <= q < |seg| ensures seg[q] == '=' ==> 0 < q && seg[q - 1] == LastLetter(tag) {
        if q == 0 {
          assert seg[0] == ' ';
        } else if q < |tag| {
          assert seg[q] == tag[q - 1] && 'A' <= tag[q - 1] <= 'Z';
        } else if q == |tag| {
          assert seg[q - 1] == tag[q - 2];
        } else {
          assert seg[q] == v[q - 1 - |tag|];
        }
      }
    }
  }

  lemma {:induction false} JoinEq(ss: seq<Slot>)
    requires GoodSlots(ss)
    ensures EqAfter(Join(ss), Letters(ss))
    decreases |ss|
  {
    if ss != [] {
      assert GoodSlots(ss[1..]);
      JoinEq(ss[1..]);
      SlotEq(ss[0]);
      EqAfterAppend(SlotText(ss[0]), Join(ss[1..]), [LastLetter(ss[0].tag)], Letters(ss[1..]));
      assert Letters(ss) == [LastLetter(ss[0].tag)] + Letters(ss[1..]);
    }
  }

  lemma {:induction false} JoinStarts(ss: seq<Slot>)
    ensures Join(ss) == [] || Join(ss)[0] == ' '
    decreases |ss|
  {
    if ss != [] {
      JoinStarts(ss[1..]);
    }
  }

  // ------------------------------------------------------------ the scan



  /** The field occurs nowhere in `[from, r)`. */
  predicate NoneIn(line: string, from: nat, r: nat, tag: string, shape: Shape) {
    forall i :: from <= i < r ==> !Occurs(line, i, tag, shape)
  }

  /** Positions where the field does not occur are passed over. */
  lemma FindPast(line: string, from: nat, r: nat, to: nat, tag: string, shape: Shape)
    requires from <= r <= to && NoneIn(line, from, r, tag, shape)
    ensures Find(line, from, to, tag, shape) == Find(line, r, to, tag, shape)
  {
    var h := Find(line, r, to, tag, shape);
    if h.Some? {
      FindIsFirst(line, from, to, h.value.at, tag, shape);
    } else {
      FindIsNone(line, from, to, tag, shape);
    }
  }

  /**
   * A tag whose last letter precedes no `=` of `rest` is not found there:
   * the `=` that closes it would have to follow that letter.
   */
  lemma AbsentField(pre: string, rest: string, tag: string, shape: Shape, L: seq<char>)
    requires GoodTag(tag) && EqAfter(rest, L)
    requires forall c :: c in L ==> !SameLetter(c, LastLetter(tag))
    ensures Find(pre + rest, |pre|, |pre + rest|, tag, shape) == None
  {
    var line := pre + rest;
    forall i | |pre| <= i < |line| ensures !Occurs(line, i, tag, shape) {
      var q := i + |tag| - 1;
      if q < |line| && line[q] == '=' {
        assert rest[q - |pre|] == '=';
        assert line[q - 1] == rest[q - 1 - |pre|];
        NotTagged(line, i, tag, |tag| - 2, shape);
      } else if q < |line| {
        NotTagged(line, i, tag, |tag| - 1, shape);
      }
    }
    FindIsNone(line, |pre|, |line|, tag, shape);
  }

  /**
   * Where a printed field stands in the line: the space, the tag from `a`,
   * the value from `x` to `e`, then a space or the end.
   */
  lemma SegmentFacts(pre: string, tag: string, v: string, rest: string, a: nat, x: nat, e: nat)
    requires GoodTag(tag) && (rest == [] || rest[0] == ' ')
    requires a == |pre| + 1 && x == a + |tag| && e == x + |v|
    ensures var line := pre + Segment(tag, v) + rest;
      && e == |pre + Segment(tag, v)| && e <= |line|
      && line[|pre|] == ' ' && !SameLetter(' ', tag[0])
      && TagAt(line, a, tag)
      && line[x..e] == v
      && (e < |line| ==> line[e] == ' ')
      && (rest == [] ==> e == |line|)
  {
    var line := pre + Segment(tag, v) + rest;
    assert TagAt(line, a, tag) by {
      forall k | 0 <= k < |tag| ensures SameLetter(line[a + k], tag[k]) {
        assert line[a + k] == tag[k];
      }
    }
    assert forall k :: x <= k < e ==> line[k] == v[k - x];
    assert line[x..e] == v;
  }

  /** A flag after the space at `p`: the tag from `a`, the flag from `x` to `e`. */
  lemma BitAfter(line: string, p: nat, a: nat, x: nat, e: nat, to: nat, tag: string, v: string)
    requires a == p + 1 && x == a + |tag| && e == x + 1
    requires |tag| > 0 && IsBit(v) && e <= to && e <= |line|
    requires line[p] == ' ' && !SameLetter(' ', tag[0])
    requires TagAt(line, a, tag) && line[x..e] == v
    ensures Find(line, p, to, tag, Bit) == Some(Hit(a, v, e))
  {
    assert line[x] == v[0] && [v[0]] == v;
    FindSkip(line, p, to, tag, Bit);
    BitAt(line, a, to, tag);
  }

  /** The rest of the line after the space at `p`, whose value starts at `x`. */
  lemma TailAfter(line: string, p: nat, x: nat, to: nat, tag: string, v: string)
    requires |tag| > 0 && p + 1 < to && TagAt(line, p + 1, tag)
    requires line[p] == ' ' && !SameLetter(' ', tag[0])
    requires x == p + 1 + |tag| && line[x..] == v
    ensures Find(line, p, to, tag, Tail) == Some(Hit(p + 1, v, |line|))
  {
    var n := RunLength(line, x, Tail);
    assert x + n == |line|;
    assert line[x..x + n] == v;
    assert Capture(line, p + 1, tag, Tail) == Hit(p + 1, v, |line|);
    FindSkip(line, p, to, tag, Tail);
    FindIsFirst(line, p + 1, to, p + 1, tag, Tail);
  }

  /** A printed number right after `pre`. */
  lemma NumberField(pre: string, tag: string, v: string, rest: string, to: nat)
    requires GoodTag(tag) && IsNumberText(v) && (rest == [] || rest[0] == ' ')
    requires |pre + Segment(tag, v)| <= to <= |pre + Segment(tag, v) + rest|
    ensures var line := pre + Segment(tag, v) + rest;
      Find(line, |pre|, to, tag, Number) == Some(Hit(|pre| + 1, v, |pre + Segment(tag, v)|))
  {
    var a := |pre| + 1;
    var x := a + |tag|;
    var e := x + |v|;
    SegmentFacts(pre, tag, v, rest, a, x, e);
    var line := pre + Segment(tag, v) + rest;
    assert forall k :: x <= k < e ==> line[k] == v[k - x];
    FieldAfter(line, |pre|, a, x, to, tag, Number, e);
  }

  /** A printed flag right after `pre`. */
  lemma BitField(pre: string, tag: string, v: string, rest: string, to: nat)
    requires GoodTag(tag) && IsBit(v) && (rest == [] || rest[0] == ' ')
    requires |pre + Segment(tag, v)| <= to <= |pre + Segment(tag, v) + rest|
    ensures var line := pre + Segment(tag, v) + rest;
      Find(line, |pre|, to, tag, Bit) == Some(Hit(|pre| + 1, v, |pre + Segment(tag, v)|))
  {
    var a := |pre| + 1;
    var x := a + |tag|;
    var e := x + |v|;
    SegmentFacts(pre, tag, v, rest, a, x, e);
    BitAfter(pre + Segment(tag, v) + rest, |pre|, a, x, e, to, tag, v);
  }

  /** The printed last field, which runs to the end of the line. */
  lemma TailField(pre: string, tag: string, v: string, to: nat)
    requires GoodTag(tag) && to == |pre + Segment(tag, v)|
    ensures var line := pre + Segment(tag, v);
      Find(line, |pre|, to, tag, Tail) == Some(Hit(|pre| + 1, v, |line|))
  {
    var x := |pre| + 1 + |tag|;
    TailFacts(pre, tag, v, x);
    TailAfter(pre + Segment(tag, v), |pre|, x, to, tag, v);
  }

  /** Where the printed last field stands: its value runs from `x` to the end of the line. */
  lemma TailFacts(pre: string, tag: string, v: string, x: nat)
    requires GoodTag(tag) && x == |pre| + 1 + |tag|
    ensures var line := pre + Segment(tag, v);
      && |pre| + 1 < |line| && line[|pre|] == ' ' && !SameLetter(' ', tag[0])
      && TagAt(line, |pre| + 1, tag) && line[x..] == v
  {
    SegmentFacts(pre, tag, v, [], |pre| + 1, x, x + |v|);
    var line := pre + Segment(tag, v);
    assert line + [] == line;
    assert line[x..] == line[x..|line|];
  }

  /** A present field right after `pre` is read back, whatever the end of the search window past it. */
  lemma PresentField(pre: string, s: Slot, rest: string, to: nat)
    requires GoodTag(s.tag) && GoodValue(s) && s.value.Some?
    requires rest == [] || rest[0] == ' '
    requires s.shape == Tail ==> rest == []
    requires |pre + SlotText(s)| <= to <= |pre + SlotText(s) + rest|
    ensures var line := pre + SlotText(s) + rest;
      Find(line, |pre|, to, s.tag, s.shape) == Some(Hit(|pre| + 1, s.value.value, |pre + SlotText(s)|))
  {
    var tag, v := s.tag, s.value.value;
    assert SlotText(s) == Segment(tag, v);
    match s.shape
    case Number =>
      NumberField(pre, tag, v, rest, to);
    case Bit =>
      BitField(pre, tag, v, rest, to);
    case Tail =>
      assert pre + SlotText(s) + rest == pre + Segment(tag, v);
      TailField(pre, tag, v, to);
  }

  /** The text of the fields from the first on is the first field's text, then the rest. */
  lemma JoinFirst(pre: string, ss: seq<Slot>)
    requires |ss| > 0
    ensures pre + Join(ss) == pre + SlotText(ss[0]) + Join(ss[1..])
  {
  }

  /** No later tag ends in the first tag's letter. */
  lemma LaterLetters(ss: seq<Slot>)
    requires |ss| > 0 && GoodSlots(ss)
    ensures GoodSlots(ss[1..])
    ensures forall c :: c in Letters(ss[1..]) ==> !SameLetter(c, LastLetter(ss[0].tag))
  {
    forall c | c in Letters(ss[1..]) ensures !SameLetter(c, LastLetter(ss[0].tag)) {
      var j :| 0 <= j < |ss[1..]| && c == Letters(ss[1..])[j];
      assert c == LastLetter(ss[j + 1].tag);
    }
  }

  /** An optional field that was not printed is not found in what follows. */
  lemma SlotAbsent(pre: string, ss: seq<Slot>)
    requires |ss| > 0 && GoodSlots(ss) && ss[0].value.None?
    ensures Find(pre + Join(ss), |pre|, |pre + Join(ss)|, ss[0].tag, ss[0].shape) == None
  {
    JoinFirst(pre, ss);
    LaterLetters(ss);
    JoinEq(ss[1..]);
    AbsentField(pre, Join(ss[1..]), ss[0].tag, ss[0].shape, Letters(ss[1..]));
  }

  /** An optional field that was printed is found with its value. */
  lemma SlotPresent(pre: string, ss: seq<Slot>)
    requires |ss| > 0 && GoodSlots(ss) && ss[0].value.Some?
    ensures Find(pre + Join(ss), |pre|, |pre + Join(ss)|, ss[0].tag, ss[0].shape)
      == Some(Hit(|pre| + 1, ss[0].value.value, |pre + SlotText(ss[0])|))
  {
    JoinFirst(pre, ss);
    JoinStarts(ss[1..]);
    PresentField(pre, ss[0], Join(ss[1..]), |pre + Join(ss)|);
  }

  /** One optional field: found with its value when printed, passed over when not. */
  lemma SlotStep(pre: string, ss: seq<Slot>)
    requires |ss| > 0 && GoodSlots(ss)
    ensures var line := pre + Join(ss);
      var h := Find(line, |pre|, |line|, ss[0].tag, ss[0].shape);
      && Group(h) == ss[0].value
      && Next(|pre|, h) == |pre + SlotText(ss[0])|
      && line == (pre + SlotText(ss[0])) + Join(ss[1..])
      && GoodSlots(ss[1..])
  {
    JoinFirst(pre, ss);
    LaterLetters(ss);
    if ss[0].value.None? {
      SlotAbsent(pre, ss);
    } else {
      SlotPresent(pre, ss);
    }
  }

  /** The optional `TBS` field as printed. */
  function TbsText(tbs: Option<string>): string {
    SlotText(Slot("T=", Number, tbs))
  }

  /** The line up to the fields after `SENS`. */
  function HeadLine(weapon: string, tbs: Option<string>, sens: string): string {
    "ST:W=" + weapon + TbsText(tbs) + Segment("S=", sens)
  }

  /** A printed line is its head, then what follows. */
  lemma HeadSplit(weapon: string, tbs: Option<string>, sens: string, tail: string)
    ensures HeadLine(weapon, tbs, sens) + tail
      == "ST:W=" + weapon + (TbsText(tbs) + (Segment("S=", sens) + tail))
  {
  }

  /** The middle part of a three-part string. */
  lemma Middle(a: string, b: string, c: string)
    ensures (a + (b + c))[|a|..|a| + |b|] == b
  {
    assert (a + (b + c))[|a|..] == b + c;
  }

  /** A printed segment at `p`: the space, the tag from `a`, the value from `x` to `e`. */
  lemma SegmentIn(line: string, p: nat, a: nat, x: nat, e: nat, tag: string, v: string)
    requires GoodTag(tag) && a == p + 1 && x == a + |tag| && e == x + |v| && e <= |line|
    requires line[p..e] == Segment(tag, v)
    ensures line[p] == ' ' && !SameLetter(' ', tag[0]) && TagAt(line, a, tag)
    ensures line[x..e] == v
    ensures forall k :: x <= k < e ==> line[k] == v[k - x]
  {
    var seg := Segment(tag, v);
    assert forall k :: 0 <= k < |seg| ==> line[p + k] == seg[k];
    assert TagAt(line, a, tag) by {
      forall k | 0 <= k < |tag| ensures SameLetter(line[a + k], tag[k]) {
        assert line[a + k] == seg[1 + k] == tag[k];
      }
    }
    assert forall k :: x <= k < e ==> line[k] == seg[k - p] == v[k - x];
  }


  /** The weapon of a line that starts `ST:W=`, ending at `we`. */
  lemma WeaponAt(line: string, weapon: string, we: nat)
    requires IsWord(weapon) && we == 5 + |weapon| && we < |line|
    requires line[..5] == "ST:W=" && line[5..we] == weapon && line[we] == ' '
    ensures TagAt(line, 0, "ST:")
    ensures Find(line, 3, |line|, "W=", Word) == Some(Hit(3, weapon, we))
  {
    MarkerAt(line);
    assert forall k :: 5 <= k < we ==> line[k] == weapon[k - 5];
    FieldAt(line, 3, 5, |line|, "W=", Word, we);
  }

  /** The marker `ST:` and the tag `W=` of a line that starts `ST:W=`. */
  lemma MarkerAt(line: string)
    requires |line| >= 5 && line[..5] == "ST:W="
    ensures TagAt(line, 0, "ST:") && TagAt(line, 3, "W=")
  {
    assert line[0] == 'S' && line[1] == 'T' && line[2] == ':' && line[3] == 'W' && line[4] == '=';
  }


  /** A printed `TBS` field holds no `S`, so no `S=` starts in it. */
  lemma TbsHasNoS(line: string, at: nat, m: nat, tbs: Option<string>)
    requires tbs.Some? ==> IsNumberText(tbs.value)
    requires m == at + |TbsText(tbs)| && m <= |line| && line[at..m] == TbsText(tbs)
    ensures NoneIn(line, at, m, "S=", Number)
  {
    var mid := TbsText(tbs);
    forall i | at <= i < m ensures !Occurs(line, i, "S=", Number) {
      var k := i - at;
      assert line[i] == mid[k];
      if k >= 3 {
        assert mid[k] == tbs.value[k - 3];
      }
      NotTagged(line, i, "S=", 0, Number);
    }
  }

  /** `SENS` in the segment from `m` to `se`, its tag at `sa`. */
  lemma SensAt(line: string, m: nat, sa: nat, se: nat, sens: string)
    requires IsNumberText(sens) && sa == m + 1 && se == sa + 2 + |sens| && se <= |line|
    requires line[m..se] == Segment("S=", sens)
    requires se == |line| || line[se] == ' '
    ensures Find(line, m, |line|, "S=", Number) == Some(Hit(sa, sens, se))
  {
    SegmentIn(line, m, sa, sa + 2, se, "S=", sens);
    FieldAfter(line, m, sa, sa + 2, |line|, "S=", Number, se);
  }


  /** `TBS`, looked for from `h` up to `sa`, where `S=` starts. */
  lemma TbsAt(line: string, h: nat, sa: nat, tbs: Option<string>)
    requires tbs.Some? ==> IsNumberText(tbs.value)
    requires sa == h + |TbsText(tbs)| + 1 && sa <= |line|
    requires line[h..sa - 1] == TbsText(tbs) && line[sa - 1] == ' '
    ensures GroupIs(Find(line, h, sa, "T=", Number), tbs)
  {
    if tbs.Some? {
      var v := tbs.value;
      SegmentIn(line, h, h + 1, h + 3, sa - 1, "T=", v);
      FieldAfter(line, h, h + 1, h + 3, sa, "T=", Number, sa - 1);
    } else {
      FindSkip(line, h, sa, "T=", Number);
    }
  }

  /** The marker and the weapon of a printed line. */
  lemma WeaponField(weapon: string, tbs: Option<string>, sens: string, tail: string, we: nat)
    requires IsWord(weapon) && we == 5 + |weapon|
    ensures var line := HeadLine(weapon, tbs, sens) + tail;
      && TagAt(line, 0, "ST:")
      && IsHit(Find(line, 3, |line|, "W=", Word), 3, weapon, we)
  {
    var line := HeadLine(weapon, tbs, sens) + tail;
    var rest := TbsText(tbs) + (Segment("S=", sens) + tail);
    HeadSplit(weapon, tbs, sens, tail);
    assert rest[0] == ' ';
    assert line[..5] == "ST:W=" && line[5..we] == weapon && line[we] == ' ';
    WeaponAt(line, weapon, we);
  }

  /** The optional `TBS` of a printed line, looked for in front of `S=`. */
  lemma TbsField(weapon: string, tbs: Option<string>, sens: string, tail: string, we: nat, sa: nat)
    requires tbs.Some? ==> IsNumberText(tbs.value)
    requires we == 5 + |weapon| && sa == we + |TbsText(tbs)| + 1
    ensures GroupIs(Find(HeadLine(weapon, tbs, sens) + tail, we, sa, "T=", Number), tbs)
  {
    var line := HeadLine(weapon, tbs, sens) + tail;
    var rest := Segment("S=", sens) + tail;
    HeadSplit(weapon, tbs, sens, tail);
    assert line[we..sa - 1] == TbsText(tbs) && line[sa - 1] == rest[0];
    TbsAt(line, we, sa, tbs);
  }

  /** The search for `S=` in a printed line passes over `TBS`. */
  lemma SensSkip(weapon: string, tbs: Option<string>, sens: string, tail: string, we: nat, m: nat)
    requires tbs.Some? ==> IsNumberText(tbs.value)
    requires we == 5 + |weapon| && m == we + |TbsText(tbs)|
    ensures var line := HeadLine(weapon, tbs, sens) + tail;
      Find(line, we, |line|, "S=", Number) == Find(line, m, |line|, "S=", Number)
  {
    var line := HeadLine(weapon, tbs, sens) + tail;
    HeadSplit(weapon, tbs, sens, tail);
    Middle("ST:W=" + weapon, TbsText(tbs), Segment("S=", sens) + tail);
    TbsHasNoS(line, we, m, tbs);
    FindPast(line, we, m, |line|, "S=", Number);
  }

  /** `SENS` of a printed line, where its segment starts. */
  lemma SensHit(weapon: string, tbs: Option<string>, sens: string, tail: string, m: nat, sa: nat, se: nat)
    requires IsNumberText(sens) && (tail == [] || tail[0] == ' ')
    requires m == 5 + |weapon| + |TbsText(tbs)| && sa == m + 1 && se == |HeadLine(weapon, tbs, sens)|
    ensures var line := HeadLine(weapon, tbs, sens) + tail;
      IsHit(Find(line, m, |line|, "S=", Number), sa, sens, se)
  {
    var line := HeadLine(weapon, tbs, sens) + tail;
    assert line == "ST:W=" + weapon + TbsText(tbs) + Segment("S=", sens) + tail;
    assert line[m..se] == Segment("S=", sens);
    assert se < |line| ==> line[se] == tail[0];
    SensAt(line, m, sa, se, sens);
  }

  /**
   * The marker, the weapon, `SENS` and the optional `TBS` between them are read back;
   * the weapon ends at `we`, `TBS` at `m`, and `S=` spans `sa - 1` to `se`.
   */
  lemma HeadFields(weapon: string, tbs: Option<string>, sens: string, tail: string, we: nat, m: nat, sa: nat, se: nat)
    requires IsWord(weapon) && IsNumberText(sens) && (tbs.Some? ==> IsNumberText(tbs.value))
    requires tail == [] || tail[0] == ' '
    requires we == 5 + |weapon| && m == we + |TbsText(tbs)| && sa == m + 1 && se == |HeadLine(weapon, tbs, sens)|
    ensures HeadRead(HeadLine(weapon, tbs, sens) + tail, weapon, tbs, sens, we, sa, se)
  {
    WeaponField(weapon, tbs, sens, tail, we);
    TbsField(weapon, tbs, sens, tail, we, sa);
    SensSkip(weapon, tbs, sens, tail, we, m);
    SensHit(weapon, tbs, sens, tail, m, sa, se);
  }

  /** The optional fields as printed are read back. */
  lemma SlotsScan(pre: string, st: Status)
    requires Printable(st)
    ensures SlotsRead(pre + Join(Slots(st)), |pre|, st)
  {
    var ss := Slots(st);
    SlotsGood(st);
    var p0 := pre;
    SlotStep(p0, ss);
    var p1 := p0 + SlotText(ss[0]);
    SlotStep(p1, ss[1..]);
    var p2 := p1 + SlotText(ss[1]);
    assert ss[1..][1..] == ss[2..];
    SlotStep(p2, ss[2..]);
    var p3 := p2 + SlotText(ss[2]);
    assert ss[2..][1..] == ss[3..];
    SlotStep(p3, ss[3..]);
    var p4 := p3 + SlotText(ss[3]);
    assert ss[3..][1..] == ss[4..];
    SlotStep(p4, ss[4..]);
    var p5 := p4 + SlotText(ss[4]);
    assert ss[4..][1..] == ss[5..];
    SlotStep(p5, ss[5..]);
    var p6 := p5 + SlotText(ss[5]);
    assert ss[5..][1..] == ss[6..];
    SlotStep(p6, ss[6..]);
  }

  /** A line whose fields are found where `st` says reads back as `st`. */
  lemma ScanReads(line: string, st: Status, we: nat, sa: nat, se: nat)
    requires HeadRead(line, st.weapon, st.tbs, st.sens, we, sa, se)
    requires SlotsRead(line, se, st)
    ensures ParseStatus(line) == Some(st)
  {
    var r := ScanStatus(line);
    assert r.Some?;
    var l := r.value;
    assert l.weapon.value == st.weapon && l.sens.value == st.sens;
    assert Groups(l) == st;
  }

  /** The head fields of any line that starts with a printed head. */
  lemma PrintedHead(weapon: string, tbs: Option<string>, sens: string, line: string, we: nat, m: nat, sa: nat, se: nat)
    requires IsWord(weapon) && IsNumberText(sens) && (tbs.Some? ==> IsNumberText(tbs.value))
    requires we == 5 + |weapon| && m == we + |TbsText(tbs)| && sa == m + 1 && se == |HeadLine(weapon, tbs, sens)|
    requires se <= |line| && line[..se] == HeadLine(weapon, tbs, sens)
    requires |line| == se || line[se] == ' '
    ensures HeadRead(line, weapon, tbs, sens, we, sa, se)
  {
    var tail := line[se..];
    assert line == HeadLine(weapon, tbs, sens) + tail;
    HeadFields(weapon, tbs, sens, tail, we, m, sa, se);
  }

  /** A line that starts with the printed head of `st` and then reads back its optional fields reads back as `st`. */
  lemma PrintedParses(st: Status, line: string)
    requires WellFormed(st)
    requires |HeadLine(st.weapon, st.tbs, st.sens)| <= |line|
    requires line[..|HeadLine(st.weapon, st.tbs, st.sens)|] == HeadLine(st.weapon, st.tbs, st.sens)
    requires |line| == |HeadLine(st.weapon, st.tbs, st.sens)| || line[|HeadLine(st.weapon, st.tbs, st.sens)|] == ' '
    requires SlotsRead(line, |HeadLine(st.weapon, st.tbs, st.sens)|, st)
    ensures ParseStatus(line) == Some(st)
  {
    var we := 5 + |st.weapon|;
    var m := we + |TbsText(st.tbs)|;
    var se := |HeadLine(st.weapon, st.tbs, st.sens)|;
    PrintedHead(st.weapon, st.tbs, st.sens, line, we, m, m + 1, se);
    ScanReads(line, st, we, m + 1, se);
  }

  /**
   * What the firmware prints, the scan reads back: every field of a status
   * line laid out in the grammar's order, single-spaced, with no `=` in `att`.
   */
  lemma RenderParses(st: Status)
    requires Printable(st)
    ensures ParseStatus(RenderStatus(st)) == Some(st)
  {
    var p0 := HeadLine(st.weapon, st.tbs, st.sens);
    var line := RenderStatus(st);
    assert line == p0 + Join(Slots(st));
    SlotsScan(p0, st);
    JoinStarts(Slots(st));
    assert line[..|p0|] == p0;
    PrintedParses(st, line);
  }
}
