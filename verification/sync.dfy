/**
 * Adopting the device's reported state (`_tick`, gui.py:424-433, and
 * `_sync_from_device`, gui.py:435-463). `Sync` is the handler with an
 * unreadable number skipped, as `safe_upd` evidently intends; `SyncAsWritten`
 * keeps the source's behaviour, where `float` raising inside the handler
 * aborts it, and `TickAsWritten` shows what that does to the polling timer.
 */
module DeviceSync {
  import opened Options
  import opened Text
  import opened StatusParser
  import opened ProfileStore
  import opened Reconciler

  /** The numeric groups `safe_upd` copies into sliders, in the order it does. */
  const SYNCED: seq<Field> := [Sens, Ads, Fov, Smth, Gain]

  /** The group a slider is synchronised from; CROUCHM is never reported, CROUCH is handled apart. */
  function Reading(st: Status, f: Field): Option<string> {
    match f
    case Sens => Some(st.sens)
    case Ads => st.ads
    case Fov => st.fov
    case Smth => st.smth
    case Gain => st.gain
    case _ => None
  }

  /** `float(group)` for a present group; `None` when it is absent or `float` raises. */
  function Value(g: Option<string>): Option<real> {
    if g.Some? then ParseNumber(g.value) else None
  }

  /** A slider after `safe_upd`, with an unreadable number skipped. */
  function Synced(prev: real, g: Option<string>): real {
    if Value(g).Some? then Value(g).value else prev
  }

  /** `safe_upd` on one field. */
  function Adopt(ui: Sliders, st: Status, f: Field): (r: Sliders)
    requires f != Crouch
    ensures r.Get(f) == Synced(ui.Get(f), Reading(st, f))
    ensures forall g :: g != Crouch && g != f ==> r.Get(g) == ui.Get(g)
  {
    if Value(Reading(st, f)).Some? then ui.With(f, Value(Reading(st, f)).value) else ui
  }

  /** `safe_upd` over `fs`, in order. */
  function Update(ui: Sliders, st: Status, fs: seq<Field>): (r: Sliders)
    requires Crouch !in fs
    ensures forall f :: f != Crouch && f !in fs ==> r.Get(f) == ui.Get(f)
    ensures forall f :: f != Crouch && f in fs ==> r.Get(f) == Synced(ui.Get(f), Reading(st, f))
    decreases |fs|
  {
    if fs == [] then ui
    else
      assert forall f :: f in fs <==> f == fs[0] || f in fs[1..];
      Update(Adopt(ui, st, fs[0]), st, fs[1..])
  }

  /** Only a listed weapon that differs from the selection switches the selector. */
  predicate Switches(e: Engine, st: Status) {
    st.weapon in WEAPONS && st.weapon != e.selected
  }

  /** The state after the weapon part of the handler: the reported weapon selected and its profile loaded. */
  function Base(e: Engine, st: Status): (b: Engine)
    ensures Switches(e, st) ==> b == LoadProfile(e.(selected := st.weapon), st.weapon)
    ensures !Switches(e, st) ==> b == e
    ensures b.store == e.store && b.connected == e.connected && b.ctrlHeld == e.ctrlHeld
    ensures b.selected == if st.weapon in WEAPONS then st.weapon else e.selected
  {
    if Switches(e, st) then LoadProfile(e.(selected := st.weapon), st.weapon) else e
  }

  /** The `ATT` group when it is truthy (present and non-empty). */
  function AttText(st: Status): Option<string> {
    if st.att.Some? && st.att.value != [] then st.att else None
  }

  /** The attachment boxes as read off an `ATT` value by case-sensitive substring tests. */
  function BoxesOf(att: string): (b: Boxes)
    ensures b.holo <==> exists i :: OccursAt(att, "HOLO", i)
    ensures b.x8 <==> exists i :: OccursAt(att, "X8", i)
    ensures b.sil <==> exists i :: OccursAt(att, "SIL", i)
    ensures b.mb <==> exists i :: OccursAt(att, "MB", i)
  {
    Boxes(Contains(att, "HOLO"), Contains(att, "X8"), Contains(att, "SIL"), Contains(att, "MB"))
  }

  /** The rest of the handler once the sliders are done: crouch (unless Ctrl is held) and attachments. */
  function Finish(b: Engine, held: bool, st: Status, ui: Sliders): (r: Engine)
    ensures r.(ui := b.ui, crouch := b.crouch, att := b.att) == b && r.ui == ui
    ensures held || st.crouch.None? ==> r.crouch == b.crouch
    ensures !held && st.crouch.Some? && IsBit(st.crouch.value) ==>
      r.crouch.I? && ParseNumber(st.crouch.value) == Some(r.crouch.i as real)
    ensures AttText(st).Some? ==> r.att == BoxesOf(AttText(st).value)
    ensures AttText(st).None? ==> r.att == b.att
  {
    assert !held && st.crouch.Some? && IsBit(st.crouch.value) ==>
      ParseNumber(st.crouch.value) == Some(if st.crouch.value == "1" then 1.0 else 0.0) by {
      if st.crouch.Some? && IsBit(st.crouch.value) {
        var t := st.crouch.value;
        assert AllDigits(t) && t != [] && t[..0] == [];
      }
    }
    var c := if st.crouch.Some? && !held then I(if st.crouch.value == "1" then 1 else 0) else b.crouch;
    var a := if AttText(st).Some? then BoxesOf(AttText(st).value) else b.att;
    b.(ui := ui, crouch := c, att := a)
  }

  /** The crouch multiplier is never synced. */
  lemma SyncedKeepsCmul(ui: Sliders, st: Status)
    ensures Update(ui, st, SYNCED).cmul == ui.cmul
  {
    assert CrouchM !in SYNCED;
    assert Update(ui, st, SYNCED).Get(CrouchM) == ui.Get(CrouchM);
  }

  /**
   * `_sync_from_device`, skipping unreadable numbers: follow a listed
   * weapon, copy the reported numbers into the sliders, take the crouch
   * flag unless Ctrl is held, and the attachments when `ATT` is non-empty.
   * Nothing is sent and nothing is saved.
   */
  function Sync(e: Engine, st: Status): (r: Engine)
    ensures r.store == e.store && r.connected == e.connected && r.ctrlHeld == e.ctrlHeld
    ensures r.selected == if st.weapon in WEAPONS then st.weapon else e.selected
    ensures forall f :: f in SYNCED ==> r.ui.Get(f) == Synced(Base(e, st).ui.Get(f), Reading(st, f))
    ensures r.ui.cmul == Base(e, st).ui.cmul
    ensures e.ctrlHeld || st.crouch.None? ==> r.crouch == Base(e, st).crouch
    ensures !e.ctrlHeld && st.crouch.Some? && IsBit(st.crouch.value) ==>
      r.crouch.I? && ParseNumber(st.crouch.value) == Some(r.crouch.i as real)
    ensures AttText(st).Some? ==> r.att == BoxesOf(AttText(st).value)
    ensures AttText(st).None? ==> r.att == Base(e, st).att
  {
    var b := Base(e, st);
    SyncedKeepsCmul(b.ui, st);
    Finish(b, e.ctrlHeld, st, Update(b.ui, st, SYNCED))
  }

  lemma {:induction false} UpdateIdempotent(ui: Sliders, st: Status, fs: seq<Field>)
    requires Crouch !in fs
    ensures Update(Update(ui, st, fs), st, fs) == Update(ui, st, fs)
  {
    var u := Update(ui, st, fs);
    var v := Update(u, st, fs);
    assert forall f :: f != Crouch ==> v.Get(f) == u.Get(f);
    assert v.sens == u.sens && v.ads == u.ads && v.fov == u.fov by {
      assert v.Get(Sens) == u.Get(Sens) && v.Get(Ads) == u.Get(Ads) && v.Get(Fov) == u.Get(Fov);
    }
    assert v.smth == u.smth && v.gain == u.gain && v.cmul == u.cmul by {
      assert v.Get(Smth) == u.Get(Smth) && v.Get(Gain) == u.Get(Gain) && v.Get(CrouchM) == u.Get(CrouchM);
    }
  }

  /** Receiving the same status line twice has the effect of receiving it once. */
  lemma SyncIdempotent(e: Engine, st: Status)
    ensures Sync(Sync(e, st), st) == Sync(e, st)
  {
    var r := Sync(e, st);
    assert !Switches(r, st);
    UpdateIdempotent(Base(e, st).ui, st, SYNCED);
  }

  // ------------------------------------------------------------ as written

  /** The sliders when the handler stopped, and whether it stopped by raising. */
  datatype Partial = Partial(ui: Sliders, raised: bool)

  /** A present, truthy group on which `float` raises `ValueError`. */
  predicate Unreadable(g: Option<string>) {
    g.Some? && g.value != [] && ParseNumber(g.value).None?
  }

  /** `safe_upd` over `fs` as written: the first unreadable number raises, and later fields are not reached. */
  function UpdateAsWritten(ui: Sliders, st: Status, fs: seq<Field>): (r: Partial)
    requires Crouch !in fs
    decreases |fs|
  {
    if fs == [] then Partial(ui, false)
    else if Unreadable(Reading(st, fs[0])) then Partial(ui, true)
    else UpdateAsWritten(Adopt(ui, st, fs[0]), st, fs[1..])
  }

  /** Every number the handler reads is one `float` accepts. */
  predicate Readable(st: Status, fs: seq<Field>) {
    forall f :: f in fs ==> !Unreadable(Reading(st, f))
  }

  /** The as-written update raises exactly when some field is unreadable, and otherwise agrees with `Update`. */
  lemma {:induction false} UpdateAsWrittenAgrees(ui: Sliders, st: Status, fs: seq<Field>)
    requires Crouch !in fs
    ensures !UpdateAsWritten(ui, st, fs).raised <==> Readable(st, fs)
    ensures Readable(st, fs) ==> UpdateAsWritten(ui, st, fs).ui == Update(ui, st, fs)
    decreases |fs|
  {
    if fs != [] {
      assert forall f :: f in fs <==> f == fs[0] || f in fs[1..];
      if !Unreadable(Reading(st, fs[0])) {
        UpdateAsWrittenAgrees(Adopt(ui, st, fs[0]), st, fs[1..]);
      }
    }
  }

  /** How the handler ended: normally, or by an exception, with the state it had reached. */
  datatype Outcome = Done(e: Engine) | Raised(e: Engine)

  /** `_sync_from_device` as written: `float` raises on an unreadable number and the rest is skipped. */
  function SyncAsWritten(e: Engine, st: Status): (r: Outcome)
    ensures r.e.store == e.store && r.e.connected == e.connected && r.e.ctrlHeld == e.ctrlHeld
    ensures r.e.selected == if st.weapon in WEAPONS then st.weapon else e.selected
  {
    var b := Base(e, st);
    var u := UpdateAsWritten(b.ui, st, SYNCED);
    if u.raised then Raised(b.(ui := u.ui)) else Done(Finish(b, e.ctrlHeld, st, u.ui))
  }

  /** The as-written handler completes exactly on readable lines, and then does what `Sync` does. */
  lemma SyncAsWrittenAgrees(e: Engine, st: Status)
    ensures SyncAsWritten(e, st).Done? <==> Readable(st, SYNCED)
    ensures Readable(st, SYNCED) ==> SyncAsWritten(e, st) == Done(Sync(e, st))
  {
    UpdateAsWrittenAgrees(Base(e, st).ui, st, SYNCED);
  }

  // ---------------------------------------------------------------- ticks

  /** One received line: `STATE_RE.match`, and the sync when it matches. */
  function Receive(e: Engine, line: string): (r: Engine)
    ensures !TagAt(line, 0, "ST:") ==> r == e
    ensures r.store == e.store && r.connected == e.connected && r.ctrlHeld == e.ctrlHeld
    ensures r.selected == e.selected || r.selected in WEAPONS
  {
    match ParseStatus(line)
    case None => e
    case Some(st) => Sync(e, st)
  }

  /** `_tick` draining the queue, with unreadable numbers skipped. */
  function Tick(e: Engine, lines: seq<string>): (r: Engine)
    ensures r.store == e.store && r.connected == e.connected && r.ctrlHeld == e.ctrlHeld
    ensures r.selected == e.selected || r.selected in WEAPONS
    decreases |lines|
  {
    if lines == [] then e else Tick(Receive(e, lines[0]), lines[1..])
  }

  /** Draining two batches in turn is draining their concatenation. */
  lemma {:induction false} TickAppend(e: Engine, a: seq<string>, b: seq<string>)
    ensures Tick(e, a + b) == Tick(Tick(e, a), b)
    decreases |a|
  {
    if a != [] {
      assert (a + b)[0] == a[0] && (a + b)[1..] == a[1..] + b;
      assert Tick(e, a + b) == Tick(Receive(e, a[0]), a[1..] + b);
      assert Tick(e, a) == Tick(Receive(e, a[0]), a[1..]);
      TickAppend(Receive(e, a[0]), a[1..], b);
    } else {
      assert a + b == b;
    }
  }

  /** The UI state, whether `_tick` is still rescheduled, and the lines left in the queue. */
  datatype Poller = Poller(e: Engine, alive: bool, backlog: seq<string>)

  /**
   * `_tick` as written, on the lines queued since the last one: an exception
   * from the handler leaves `_tick` before `after(50, ...)` re-arms it, so
   * the rest of the queue, and every later line, is never read.
   */
  function TickAsWritten(p: Poller, lines: seq<string>): (r: Poller)
    ensures !p.alive ==> r == p.(backlog := p.backlog + lines)
    ensures r.e.store == p.e.store && r.e.connected == p.e.connected && r.e.ctrlHeld == p.e.ctrlHeld
    ensures r.e.selected == p.e.selected || r.e.selected in WEAPONS
    decreases |lines|
  {
    if !p.alive then p.(backlog := p.backlog + lines)
    else if lines == [] then p
    else
      match ParseStatus(lines[0])
      case None => TickAsWritten(p, lines[1..])
      case Some(st) =>
        match SyncAsWritten(p.e, st)
        case Done(e1) => TickAsWritten(p.(e := e1), lines[1..])
        case Raised(e1) => Poller(e1, false, p.backlog + lines[1..])
  }

  /** A line is harmless to the as-written tick when it is no status line or all its numbers read. */
  predicate Harmless(line: string) {
    ParseStatus(line).Some? ==> Readable(ParseStatus(line).value, SYNCED)
  }

  /** On harmless lines the as-written tick does what `Tick` does and stays armed. */
  lemma {:induction false} TickAsWrittenAgrees(p: Poller, lines: seq<string>)
    requires p.alive
    requires forall i :: 0 <= i < |lines| ==> Harmless(lines[i])
    ensures TickAsWritten(p, lines) == p.(e := Tick(p.e, lines))
    decreases |lines|
  {
    if lines != [] {
      match ParseStatus(lines[0])
      case None =>
        TickAsWrittenAgrees(p, lines[1..]);
      case Some(st) =>
        SyncAsWrittenAgrees(p.e, st);
        TickAsWrittenAgrees(p.(e := Sync(p.e, st)), lines[1..]);
    }
  }
}
