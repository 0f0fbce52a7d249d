/**
 * The firmware status line (`STATE_RE`, gui.py:38-51, applied with
 * `re.match` at gui.py:430). The regex is modelled as an ordered scan: after
 * the case-insensitive `ST:` marker, each field's tag is searched from where
 * the previous recognised field ended, and the first occurrence followed by a
 * well-formed value is taken; an optional field that is not found is skipped
 * and never looked for out of order. `WEAPON` and `SENS` are mandatory. One
 * backtrack of the regex is kept: `TBS` counts only when it lies before the
 * `SENS` tag (so `ATT=1...`, which contains `T=`, is not mistaken for it).
 * The others are not: a value runs as far as its shape allows, so where
 * `\S+` would give up the tail of the weapon to find `S=` inside it
 * (`ST:W=AK47,S=0.78`), the scan reports no match.
 */
module StatusParser {
  import opened Options
  import opened Text

  /**
   * `re.IGNORECASE` comparison of a line character with an upper-case pattern
   * character. Python also folds the long s (U+017F) together with `s`.
   */
  predicate SameLetter(c: char, p: char) {
    || c == p
    || ('A' <= p <= 'Z' && c as int == p as int + 32)
    || (p == 'S' && c == '\U{017F}')
  }

  /** The value shapes of the grammar: `\S+`, `[-\d.]+`, `[01]` and `.*`. */
  datatype Shape = Word | Number | Bit | Tail

  predicate Fits(shape: Shape, c: char) {
    match shape
    case Word => !IsSpace(c)
    case Number => c == '-' || c == '.' || IsDigit(c)
    case Bit => c == '0' || c == '1'
    case Tail => true
  }

  /** Length of the longest run of `shape` characters at `at`; `[01]` takes one character. */
  function RunLength(line: string, at: nat, shape: Shape): (n: nat)
    ensures at + n <= |line| || n == 0
    ensures forall k :: at <= k < at + n ==> Fits(shape, line[k])
    ensures shape != Bit && at + n < |line| ==> !Fits(shape, line[at + n])
    ensures shape == Bit ==> n <= 1
    ensures shape == Tail && at <= |line| ==> at + n == |line|
    decreases |line| - at
  {
    if at >= |line| || !Fits(shape, line[at]) then 0
    else if shape == Bit then 1
    else 1 + RunLength(line, at + 1, shape)
  }

  /** The pattern text `tag` matches `line` at `i`, ignoring case. */
  predicate TagAt(line: string, i: nat, tag: string) {
    && i + |tag| <= |line|
    && forall k :: 0 <= k < |tag| ==> SameLetter(line[i + k], tag[k])
  }

  /** `tag` at `i` followed by a value the field's shape accepts. */
  predicate Occurs(line: string, i: nat, tag: string, shape: Shape) {
    TagAt(line, i, tag) && (shape == Tail || RunLength(line, i + |tag|, shape) > 0)
  }

  /** A recognised field: where its tag starts, the captured value, where the value ends. */
  datatype Hit = Hit(at: nat, value: string, end: nat)

  /** The capture of the field whose tag starts at `at`. */
  function Capture(line: string, at: nat, tag: string, shape: Shape): (h: Hit)
    requires TagAt(line, at, tag)
    ensures h.at == at && at + |tag| <= h.end <= |line|
    ensures h.value == line[at + |tag|..h.end]
    ensures forall k :: 0 <= k < |h.value| ==> Fits(shape, h.value[k])
    ensures shape != Bit && h.end < |line| ==> !Fits(shape, line[h.end])
  {
    var start := at + |tag|;
    var n := RunLength(line, start, shape);
    Hit(at, line[start..start + n], start + n)
  }

  /** A present hit captured a non-empty value of the given shape. */
  predicate Shaped(h: Option<Hit>, shape: Shape) {
    h.Some? && shape != Tail ==>
      && |h.value.value| > 0
      && (shape == Bit ==> |h.value.value| == 1)
      && (forall k :: 0 <= k < |h.value.value| ==> Fits(shape, h.value.value[k]))
  }

  /** The first `i` with `from <= i < to` at which the field occurs. */
  function Find(line: string, from: nat, to: nat, tag: string, shape: Shape): (r: Option<Hit>)
    ensures r.Some? ==> from <= r.value.at < to && Occurs(line, r.value.at, tag, shape)
    ensures r.Some? ==> r.value == Capture(line, r.value.at, tag, shape)
    ensures r.Some? ==> (forall i :: from <= i < r.value.at ==> !Occurs(line, i, tag, shape))
    ensures r.None? ==> (forall i :: from <= i < to ==> !Occurs(line, i, tag, shape))
    ensures Shaped(r, shape)
    decreases (to as int) - (from as int)
  {
    if from >= to then None
    else if Occurs(line, from, tag, shape) then Some(Capture(line, from, tag, shape))
    else Find(line, from + 1, to, tag, shape)
  }

  /** A run is determined by where it stops. */
  lemma {:induction false} RunLengthIs(line: string, at: nat, n: nat, shape: Shape)
    requires shape != Bit && at + n <= |line|
    requires forall k :: at <= k < at + n ==> Fits(shape, line[k])
    requires at + n == |line| || !Fits(shape, line[at + n])
    ensures RunLength(line, at, shape) == n
    decreases n
  {
    if n > 0 {
      RunLengthIs(line, at + 1, n - 1, shape);
    }
  }

  /** `Find` returns the first occurrence in range, whichever it is. */
  lemma {:induction false} FindIsFirst(line: string, from: nat, to: nat, at: nat, tag: string, shape: Shape)
    requires from <= at < to && Occurs(line, at, tag, shape)
    requires forall i :: from <= i < at ==> !Occurs(line, i, tag, shape)
    ensures Find(line, from, to, tag, shape) == Some(Capture(line, at, tag, shape))
    decreases at - from
  {
    if from < at {
      FindIsFirst(line, from + 1, to, at, tag, shape);
    }
  }

  /** `Find` fails exactly when the field occurs nowhere in range. */
  lemma {:induction false} FindIsNone(line: string, from: nat, to: nat, tag: string, shape: Shape)
    requires forall i :: from <= i < to ==> !Occurs(line, i, tag, shape)
    ensures Find(line, from, to, tag, shape) == None
    decreases (to as int) - (from as int)
  {
    if from < to {
      FindIsNone(line, from + 1, to, tag, shape);
    }
  }

  /** A single mismatching character rules a tag out. */
  lemma NotTagged(line: string, i: nat, tag: string, k: nat, shape: Shape)
    requires k < |tag| && i + k < |line| && !SameLetter(line[i + k], tag[k])
    ensures !Occurs(line, i, tag, shape)
  {
  }

  /** A position whose character cannot start the tag is passed over. */
  lemma FindSkip(line: string, from: nat, to: nat, tag: string, shape: Shape)
    requires from < to && from < |line| && 0 < |tag| && !SameLetter(line[from], tag[0])
    ensures Find(line, from, to, tag, shape) == Find(line, from + 1, to, tag, shape)
  {
    NotTagged(line, from, tag, 0, shape);
  }

  /** A tag at `at` whose value runs from `x` up to `end` is the field found from `at`. */
  lemma FieldAt(line: string, at: nat, x: nat, to: nat, tag: string, shape: Shape, end: nat)
    requires shape != Bit && at < to && x == at + |tag| && x < end <= |line|
    requires TagAt(line, at, tag)
    requires forall k :: x <= k < end ==> Fits(shape, line[k])
    requires end == |line| || !Fits(shape, line[end])
    ensures Find(line, at, to, tag, shape) == Some(Hit(at, line[x..end], end))
  {
    RunLengthIs(line, x, end - x, shape);
    assert Occurs(line, at, tag, shape);
    assert Capture(line, at, tag, shape) == Hit(at, line[x..end], end);
    FindIsFirst(line, at, to, at, tag, shape);
  }

  /** The same, for a tag at `at` that follows a separator at `from`. */
  lemma FieldAfter(line: string, from: nat, at: nat, x: nat, to: nat, tag: string, shape: Shape, end: nat)
    requires shape != Bit && at == from + 1 && at < to && x == at + |tag| && x < end <= |line|
    requires 0 < |tag| && !SameLetter(line[from], tag[0]) && TagAt(line, at, tag)
    requires forall k :: x <= k < end ==> Fits(shape, line[k])
    requires end == |line| || !Fits(shape, line[end])
    ensures Find(line, from, to, tag, shape) == Some(Hit(at, line[x..end], end))
  {
    FindSkip(line, from, to, tag, shape);
    FieldAt(line, at, x, to, tag, shape, end);
  }

  /** A flag at `at` is the field found from `at`. */
  lemma BitAt(line: string, at: nat, to: nat, tag: string)
    requires at < to && at + |tag| < |line|
    requires TagAt(line, at, tag) && Fits(Bit, line[at + |tag|])
    ensures Find(line, at, to, tag, Bit) == Some(Hit(at, [line[at + |tag|]], at + |tag| + 1))
  {
    FindIsFirst(line, at, to, at, tag, Bit);
    assert line[at + |tag|..at + |tag| + 1] == [line[at + |tag|]];
  }

  /** Where the scan continues after an optional field. */
  function Next(pos: nat, h: Option<Hit>): nat {
    if h.Some? then h.value.end else pos
  }

  /** Every recognised field of a status line, with positions. */
  datatype Layout = Layout(
    weapon: Hit, tbs: Option<Hit>, sens: Hit, ads: Option<Hit>, fov: Option<Hit>,
    gain: Option<Hit>, smth: Option<Hit>, crouch: Option<Hit>, on: Option<Hit>, att: Option<Hit>)

  /** `h`, when present, starts at or after `pos`. */
  predicate StartsFrom(pos: nat, h: Option<Hit>) {
    h.Some? ==> pos <= h.value.at
  }

  /** The fields lie in the grammar's order, each after the end of the one before it. */
  predicate InOrder(l: Layout) {
    var p0 := l.sens.end;
    var p1 := Next(p0, l.ads);
    var p2 := Next(p1, l.fov);
    var p3 := Next(p2, l.gain);
    var p4 := Next(p3, l.smth);
    var p5 := Next(p4, l.crouch);
    var p6 := Next(p5, l.on);
    && 3 <= l.weapon.at
    && l.weapon.end <= l.sens.at
    && (l.tbs.Some? ==> l.weapon.end <= l.tbs.value.at && l.tbs.value.end <= l.sens.at)
    && StartsFrom(p0, l.ads) && StartsFrom(p1, l.fov) && StartsFrom(p2, l.gain)
    && StartsFrom(p3, l.smth) && StartsFrom(p4, l.crouch) && StartsFrom(p5, l.on)
    && StartsFrom(p6, l.att)
  }

  /** Every captured value has its field's shape. */
  predicate AllShaped(l: Layout) {
    && Shaped(Some(l.weapon), Word) && Shaped(l.tbs, Number) && Shaped(Some(l.sens), Number)
    && Shaped(l.ads, Number) && Shaped(l.fov, Number) && Shaped(l.gain, Number)
    && Shaped(l.smth, Number) && Shaped(l.crouch, Bit) && Shaped(l.on, Bit)
  }

  /** A `T=` value cannot run into the `S=` tag that follows it. */
  lemma TbsBeforeSens(line: string, t: Option<Hit>, s: Hit)
    requires t.Some? ==> Occurs(line, t.value.at, "T=", Number) && t.value == Capture(line, t.value.at, "T=", Number)
    requires t.Some? ==> t.value.at < s.at
    requires TagAt(line, s.at, "S=")
    ensures t.Some? ==> t.value.end <= s.at
  {
    if t.Some? {
      var h := t.value;
      assert SameLetter(line[h.at + 1], "T="[1]);
      assert SameLetter(line[s.at], "S="[0]);
      assert !Fits(Number, line[s.at]);
    }
  }

  /** The ordered scan of `STATE_RE`; `None` where `re.match` returns no match. */
  function ScanStatus(line: string): (r: Option<Layout>)
    ensures r.Some? ==> TagAt(line, 0, "ST:") && InOrder(r.value) && AllShaped(r.value)
  {
    if !TagAt(line, 0, "ST:") then None
    else
      match Find(line, 3, |line|, "W=", Word)
      case None => None
      case Some(w) =>
        match Find(line, w.end, |line|, "S=", Number)
        case None => None
        case Some(s) =>
          var t := Find(line, w.end, s.at, "T=", Number);
          TbsBeforeSens(line, t, s);
          var a := Find(line, s.end, |line|, "A=", Number);
          var f := Find(line, Next(s.end, a), |line|, "F=", Number);
          var g := Find(line, Next(Next(s.end, a), f), |line|, "G=", Number);
          var sm := Find(line, Next(Next(Next(s.end, a), f), g), |line|, "SM=", Number);
          var c := Find(line, Next(Next(Next(Next(s.end, a), f), g), sm), |line|, "C=", Bit);
          var on := Find(line, Next(Next(Next(Next(Next(s.end, a), f), g), sm), c), |line|, "ON=", Bit);
          var att := Find(line, Next(Next(Next(Next(Next(Next(s.end, a), f), g), sm), c), on), |line|, "ATT=", Tail);
          Some(Layout(w, t, s, a, f, g, sm, c, on, att))
  }

  /** The named groups of a successful match (`m.group(...)`). */
  datatype Status = Status(
    weapon: string, tbs: Option<string>, sens: string, ads: Option<string>, fov: Option<string>,
    gain: Option<string>, smth: Option<string>, crouch: Option<string>, on: Option<string>,
    att: Option<string>)

  function Group(h: Option<Hit>): Option<string> {
    if h.Some? then Some(h.value.value) else None
  }

  predicate IsWord(s: string) {
    s != [] && forall k :: 0 <= k < |s| ==> !IsSpace(s[k])
  }

  predicate IsNumberText(s: string) {
    s != [] && forall k :: 0 <= k < |s| ==> Fits(Number, s[k])
  }

  predicate IsBit(s: string) {
    s == "0" || s == "1"
  }

  /** The value-shape guarantees of the grammar, read on the groups. */
  predicate WellFormed(st: Status) {
    && IsWord(st.weapon) && IsNumberText(st.sens)
    && (st.tbs.Some? ==> IsNumberText(st.tbs.value))
    && (st.ads.Some? ==> IsNumberText(st.ads.value))
    && (st.fov.Some? ==> IsNumberText(st.fov.value))
    && (st.gain.Some? ==> IsNumberText(st.gain.value))
    && (st.smth.Some? ==> IsNumberText(st.smth.value))
    && (st.crouch.Some? ==> IsBit(st.crouch.value))
    && (st.on.Some? ==> IsBit(st.on.value))
  }

  /** The groups of a scanned line. */
  function Groups(l: Layout): (st: Status)
    requires AllShaped(l)
    ensures WellFormed(st)
  {
    var st := Status(l.weapon.value, Group(l.tbs), l.sens.value, Group(l.ads), Group(l.fov),
                     Group(l.gain), Group(l.smth), Group(l.crouch), Group(l.on), Group(l.att));
    assert l.crouch.Some? ==> |l.crouch.value.value| == 1 && Fits(Bit, l.crouch.value.value[0]);
    assert l.on.Some? ==> |l.on.value.value| == 1 && Fits(Bit, l.on.value.value[0]);
    st
  }

  /**
   * `STATE_RE.match(line)`, reduced to its groups: a line parses only if it
   * starts with the marker, and then always carries a weapon and a
   * sensitivity; the flags, when present, are `0` or `1`.
   */
  function ParseStatus(line: string): (r: Option<Status>)
    ensures r.Some? ==> TagAt(line, 0, "ST:")
    ensures r.Some? ==> WellFormed(r.value)
  {
    match ScanStatus(line)
    case None => None
    case Some(l) => Some(Groups(l))
  }
}

module StatusExamples {
  import opened Options
  import opened StatusParser

  const MINIMAL := "ST:W=AK47 S=0.78"

  lemma MinimalWeapon()
    ensures Find(MINIMAL, 3, |MINIMAL|, "W=", Word) == Some(Hit(3, "AK47", 9))
  {
    var m := MINIMAL;
    assert m[3] == 'W' && m[4] == '=';
    assert m[5] == 'A' && m[6] == 'K' && m[7] == '4' && m[8] == '7' && m[9] == ' ';
    FieldAt(m, 3, 5, |m|, "W=", Word, 9);
    assert m[5..9] == "AK47";
  }

  lemma MinimalSens()
    ensures Find(MINIMAL, 9, |MINIMAL|, "S=", Number) == Some(Hit(10, "0.78", 16))
  {
    var m := MINIMAL;
    assert |m| == 16 && m[9] == ' ' && m[10] == 'S' && m[11] == '=';
    assert m[12] == '0' && m[13] == '.' && m[14] == '7' && m[15] == '8';
    FieldAfter(m, 9, 10, 12, |m|, "S=", Number, 16);
    assert m[12..16] == "0.78";
  }

  lemma MinimalTbs()
    ensures Find(MINIMAL, 9, 10, "T=", Number) == None
  {
    assert MINIMAL[9] == ' ';
    FindSkip(MINIMAL, 9, 10, "T=", Number);
  }

  /** A minimal status line: only the mandatory fields. */
  lemma ParseMinimalLine()
    ensures ParseStatus(MINIMAL)
         == Some(Status("AK47", None, "0.78", None, None, None, None, None, None, None))
  {
    assert TagAt(MINIMAL, 0, "ST:");
    MinimalWeapon();
    MinimalSens();
    MinimalTbs();
  }

  /** `ST:W=M249 T=12 S=1.1 A=0.9 F=95 G=2.0 SM=0.4 C=1 ON=1 ATT=HOLO,SIL`, in short pieces. */
  const FULL := "ST:W=M249 " + "T=12 S=1.1 " + "A=0.9 F=95 " + "G=2.0 SM=0.4 " + "C=1 ON=1 " + "ATT=HOLO,SIL"

  lemma FullWeapon()
    ensures Find(FULL, 3, |FULL|, "W=", Word) == Some(Hit(3, "M249", 9))
  {
    var l := FULL;
    assert l[3] == 'W' && l[4] == '=';
    assert l[5] == 'M' && l[6] == '2' && l[7] == '4' && l[8] == '9' && l[9] == ' ';
    FieldAt(l, 3, 5, |l|, "W=", Word, 9);
    assert l[5..9] == "M249";
  }

  /** `S=` is not found before position 15 (`T=12` is passed over). */
  lemma FullSensSkipped()
    ensures Find(FULL, 9, |FULL|, "S=", Number) == Find(FULL, 15, |FULL|, "S=", Number)
  {
    var l := FULL;
    assert l[9] == ' ' && l[10] == 'T' && l[11] == '=' && l[12] == '1' && l[13] == '2' && l[14] == ' ';
    FindSkip(l, 9, |l|, "S=", Number);
    FindSkip(l, 10, |l|, "S=", Number);
    FindSkip(l, 11, |l|, "S=", Number);
    FindSkip(l, 12, |l|, "S=", Number);
    FindSkip(l, 13, |l|, "S=", Number);
    FindSkip(l, 14, |l|, "S=", Number);
  }

  lemma FullSensHit()
    ensures Find(FULL, 15, |FULL|, "S=", Number) == Some(Hit(15, "1.1", 20))
  {
    var l := FULL;
    assert l[15] == 'S' && l[16] == '=';
    assert l[17] == '1' && l[18] == '.' && l[19] == '1' && l[20] == ' ';
    FieldAt(l, 15, 17, |l|, "S=", Number, 20);
    assert l[17..20] == "1.1";
  }

  lemma FullSens()
    ensures Find(FULL, 9, |FULL|, "S=", Number) == Some(Hit(15, "1.1", 20))
  {
    FullSensSkipped();
    FullSensHit();
  }

  lemma FullTbs()
    ensures Find(FULL, 9, 15, "T=", Number) == Some(Hit(10, "12", 14))
  {
    var l := FULL;
    assert l[9] == ' ' && l[10] == 'T' && l[11] == '=';
    assert l[12] == '1' && l[13] == '2' && l[14] == ' ';
    FieldAfter(l, 9, 10, 12, 15, "T=", Number, 14);
    assert l[12..14] == "12";
  }

  lemma FullAds()
    ensures Find(FULL, 20, |FULL|, "A=", Number) == Some(Hit(21, "0.9", 26))
  {
    var l := FULL;
    assert l[20] == ' ' && l[21] == 'A' && l[22] == '=';
    assert l[23] == '0' && l[24] == '.' && l[25] == '9' && l[26] == ' ';
    FieldAfter(l, 20, 21, 23, |l|, "A=", Number, 26);
    assert l[23..26] == "0.9";
  }

  lemma FullFov()
    ensures Find(FULL, 26, |FULL|, "F=", Number) == Some(Hit(27, "95", 31))
  {
    var l := FULL;
    assert l[26] == ' ' && l[27] == 'F' && l[28] == '=';
    assert l[29] == '9' && l[30] == '5' && l[31] == ' ';
    FieldAfter(l, 26, 27, 29, |l|, "F=", Number, 31);
    assert l[29..31] == "95";
  }

  lemma FullGain()
    ensures Find(FULL, 31, |FULL|, "G=", Number) == Some(Hit(32, "2.0", 37))
  {
    var l := FULL;
    assert l[31] == ' ' && l[32] == 'G' && l[33] == '=';
    assert l[34] == '2' && l[35] == '.' && l[36] == '0' && l[37] == ' ';
    FieldAfter(l, 31, 32, 34, |l|, "G=", Number, 37);
    assert l[34..37] == "2.0";
  }

  lemma FullSmth()
    ensures Find(FULL, 37, |FULL|, "SM=", Number) == Some(Hit(38, "0.4", 44))
  {
    var l := FULL;
    assert l[37] == ' ' && l[38] == 'S' && l[39] == 'M' && l[40] == '=';
    assert l[41] == '0' && l[42] == '.' && l[43] == '4' && l[44] == ' ';
    FieldAfter(l, 37, 38, 41, |l|, "SM=", Number, 44);
    assert l[41..44] == "0.4";
  }

  lemma FullCrouch()
    ensures Find(FULL, 44, |FULL|, "C=", Bit) == Some(Hit(45, "1", 48))
  {
    var l := FULL;
    assert l[44] == ' ' && l[45] == 'C' && l[46] == '=' && l[47] == '1';
    FindSkip(l, 44, |l|, "C=", Bit);
    BitAt(l, 45, |l|, "C=");
  }

  /** A three-letter tag spelled out character by character. */
  lemma TagOf3(line: string, i: nat, a: char, b: char, c: char)
    requires i + 3 <= |line| && line[i] == a && line[i + 1] == b && line[i + 2] == c
    ensures TagAt(line, i, [a, b, c])
  {}

  lemma FullOn()
    ensures Find(FULL, 48, |FULL|, "ON=", Bit) == Some(Hit(49, "1", 53))
  {
    var l := FULL;
    assert l[48] == ' ' && l[49] == 'O' && l[50] == 'N' && l[51] == '=' && l[52] == '1';
    FindSkip(l, 48, |l|, "ON=", Bit);
    TagOf3(l, 49, 'O', 'N', '=');
    BitAt(l, 49, |l|, "ON=");
  }

  lemma FullAtt()
    ensures Find(FULL, 53, |FULL|, "ATT=", Tail) == Some(Hit(54, "HOLO,SIL", 66))
  {
    var l := FULL;
    assert |l| == 66 && l[53] == ' ' && l[54] == 'A' && l[55] == 'T' && l[56] == 'T' && l[57] == '=';
    FieldAfter(l, 53, 54, 58, |l|, "ATT=", Tail, 66);
    assert l[58..66] == "ATT=HOLO,SIL"[4..];
  }

  /** A status line carrying every field, in the grammar's order. */
  lemma ParseFullLine()
    ensures ParseStatus(FULL)
         == Some(Status("M249", Some("12"), "1.1", Some("0.9"), Some("95"), Some("2.0"),
                        Some("0.4"), Some("1"), Some("1"), Some("HOLO,SIL")))
  {
    assert TagAt(FULL, 0, "ST:");
    FullWeapon();
    FullSens();
    FullTbs();
    FullAds();
    FullFov();
    FullGain();
    FullSmth();
    FullCrouch();
    FullOn();
    FullAtt();
  }
}
