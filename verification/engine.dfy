/**
 * The GUI's reconciliation engine (`ModernApp`, gui.py:138-485), reduced to
 * the state its handlers read and write: the weapon selector, the six
 * slider variables, the crouch and attachment check boxes, the Ctrl-hold
 * flag, whether a port is open, and the settings store. Each handler is a
 * function from a state to the next state and the commands it writes to the
 * port, in order. Widgets, the log pane and the dashboard label are left out.
 */
module Reconciler {
  import opened Options
  import opened ProfileStore
  import opened Commands

  /**
   * The six slider variables (`var_sens` ... `var_cmul`), holding each value
   * as it was written: the scale's clipping to its range and its write-back
   * with three decimals (gui.py:269-274, 329) are not part of the model.
   */
  datatype Sliders = Sliders(sens: real, ads: real, fov: real, smth: real, gain: real, cmul: real)
  {
    /** The slider of a field; CROUCH has a check box, not a slider. */
    function Get(f: Field): real
      requires f != Crouch
    {
      match f
      case Sens => sens
      case Ads => ads
      case Fov => fov
      case Smth => smth
      case Gain => gain
      case CrouchM => cmul
    }

    /** `var.set(x)` on the slider of `f`. */
    function With(f: Field, x: real): (s: Sliders)
      requires f != Crouch
      ensures s.Get(f) == x
      ensures forall g :: g != Crouch && g != f ==> s.Get(g) == Get(g)
    {
      match f
      case Sens => this.(sens := x)
      case Ads => this.(ads := x)
      case Fov => this.(fov := x)
      case Smth => this.(smth := x)
      case Gain => this.(gain := x)
      case CrouchM => this.(cmul := x)
    }
  }

  /** The attachment check boxes. */
  datatype Boxes = Boxes(holo: bool, x8: bool, sil: bool, mb: bool)

  const CLEARED := Boxes(false, false, false, false)

  /** What the handlers of gui.py:366-485 read and write. */
  datatype Engine = Engine(
    selected: string,           // cmb_weapon
    ui: Sliders,
    crouch: Num,                // var_crouch, holding whatever was written to it
    att: Boxes,
    ctrlHeld: bool,             // _ctrl_held
    connected: bool,            // serial.ser is set
    store: Store)

  /** The keys `_apply` is called with. */
  datatype Key = Setting(f: Field) | Holo | X8 | Sil | Mb

  function KeyName(k: Key): string {
    match k
    case Setting(f) => Name(f)
    case Holo => "HOLO"
    case X8 => "X8"
    case Sil => "SIL"
    case Mb => "MB"
  }

  /** The keys sent as `int(val)`; every other key is sent as `float(val)` with four decimals. */
  predicate IntEncoded(k: Key) {
    !k.Setting? || k.f == Crouch
  }

  /** What `_apply` stores for a setting: `int(val)` for CROUCH, `float(val)` otherwise. */
  function Persisted(f: Field, v: Num): (n: Num)
    ensures f == Crouch ==> n.I? && n.i == AsInt(v)
    ensures f != Crouch ==> n.R? && n.x == AsReal(v)
  {
    if f == Crouch then I(AsInt(v)) else R(AsReal(v))
  }

  /** A handler's effect: the next state and the commands written, in order. */
  datatype Step = Step(e: Engine, sent: seq<Command>)

  /**
   * `_apply(key, val, save)`: nothing at all while no port is open;
   * otherwise one command, and for a saved setting (never an attachment)
   * the value is written to the selected weapon's profile.
   */
  function Apply(e: Engine, k: Key, v: Num, save: bool): (r: Step)
    ensures r.e.(store := e.store) == e
    ensures !e.connected ==> r == Step(e, [])
    ensures e.connected ==> |r.sent| == 1 && r.sent[0].key == KeyName(k)
    ensures e.connected && IntEncoded(k) ==> r.sent[0].arg == Int(AsInt(v))
    ensures e.connected && !IntEncoded(k) ==> r.sent[0].arg == Fixed4(AsReal(v))
    ensures !(e.connected && save && k.Setting?) ==> r.e.store == e.store
    ensures e.connected && save && k.Setting? ==>
      && r.e.store.Keys == e.store.Keys + {e.selected}
      && Lookup(r.e.store, e.selected).Get(k.f) == Persisted(k.f, v)
      && (forall g :: g != k.f ==> Lookup(r.e.store, e.selected).Get(g) == Lookup(e.store, e.selected).Get(g))
      && (forall w :: w != e.selected ==> Lookup(r.e.store, w) == Lookup(e.store, w))
  {
    if !e.connected then Step(e, [])
    else
      var arg := if IntEncoded(k) then Int(AsInt(v)) else Fixed4(AsReal(v));
      var store := if save && k.Setting? then Set(e.store, e.selected, k.f, Persisted(k.f, v)) else e.store;
      Step(e.(store := store), [Command(KeyName(k), arg)])
  }

  function Bit(b: bool): int {
    if b then 1 else 0
  }

  /** The Holo check box (`t_holo`): ticking it clears the 8x box, then the new state is sent. */
  function ClickHolo(e: Engine): (r: Step)
    ensures r.e.att.holo == !e.att.holo && !(r.e.att.holo && r.e.att.x8)
    ensures r.e.att.x8 == (e.att.x8 && e.att.holo)
    ensures r.e.att.sil == e.att.sil && r.e.att.mb == e.att.mb
    ensures r.e.(att := e.att) == e
    ensures r.sent == if e.connected then [Command("HOLO", Int(Bit(!e.att.holo)))] else []
  {
    var on := !e.att.holo;
    Apply(e.(att := e.att.(holo := on, x8 := if on then false else e.att.x8)), Holo, I(Bit(on)), false)
  }

  /** The 8x check box (`t_x8`): ticking it clears the Holo box, then the new state is sent. */
  function ClickX8(e: Engine): (r: Step)
    ensures r.e.att.x8 == !e.att.x8 && !(r.e.att.holo && r.e.att.x8)
    ensures r.e.att.holo == (e.att.holo && e.att.x8)
    ensures r.e.att.sil == e.att.sil && r.e.att.mb == e.att.mb
    ensures r.e.(att := e.att) == e
    ensures r.sent == if e.connected then [Command("X8", Int(Bit(!e.att.x8)))] else []
  {
    var on := !e.att.x8;
    Apply(e.(att := e.att.(x8 := on, holo := if on then false else e.att.holo)), X8, I(Bit(on)), false)
  }

  /** The Silencer check box: flip and send, never saved. */
  function ClickSil(e: Engine): (r: Step)
    ensures r.e.att == e.att.(sil := !e.att.sil) && r.e.(att := e.att) == e
    ensures r.sent == if e.connected then [Command("SIL", Int(Bit(!e.att.sil)))] else []
  {
    Apply(e.(att := e.att.(sil := !e.att.sil)), Sil, I(Bit(!e.att.sil)), false)
  }

  /** The Boost check box: flip and send, never saved. */
  function ClickMb(e: Engine): (r: Step)
    ensures r.e.att == e.att.(mb := !e.att.mb) && r.e.(att := e.att) == e
    ensures r.sent == if e.connected then [Command("MB", Int(Bit(!e.att.mb)))] else []
  {
    Apply(e.(att := e.att.(mb := !e.att.mb)), Mb, I(Bit(!e.att.mb)), false)
  }

  /**
   * The crouch check box: Tk compares the variable's text with the onvalue
   * `1`, sets the variable to 0 when they are equal and to 1 otherwise (so a
   * float such as 1.0 or 1.5 counts as off); the new value is sent and saved
   * as the weapon's CROUCH.
   */
  function ClickCrouch(e: Engine): (r: Step)
    ensures r.e.crouch == I(0) || r.e.crouch == I(1)
    ensures r.e.crouch == I(1) <==> e.crouch != I(1)
    ensures r.e.(crouch := e.crouch, store := e.store) == e
    ensures e.connected ==> r.sent == [Command("CROUCH", Int(r.e.crouch.i))]
    ensures e.connected ==> Lookup(r.e.store, e.selected) == Lookup(e.store, e.selected).(crouch := r.e.crouch)
    ensures e.connected ==> r.e.store.Keys == e.store.Keys + {e.selected}
    ensures e.connected ==> forall w :: w != e.selected ==> Lookup(r.e.store, w) == Lookup(e.store, w)
    ensures !e.connected ==> r.sent == [] && r.e.store == e.store
  {
    var c := if e.crouch == I(1) then 0 else 1;
    var r := Apply(e.(crouch := I(c)), Setting(Crouch), I(c), true);
    assert e.connected ==> Lookup(r.e.store, e.selected) == Lookup(e.store, e.selected).(crouch := I(c)) by {
      if e.connected {
        var p, q := Lookup(r.e.store, e.selected), Lookup(e.store, e.selected);
        assert p.Get(Sens) == q.Get(Sens) && p.Get(Ads) == q.Get(Ads) && p.Get(Fov) == q.Get(Fov);
        assert p.Get(Smth) == q.Get(Smth) && p.Get(Gain) == q.Get(Gain) && p.Get(CrouchM) == q.Get(CrouchM);
      }
    }
    r
  }

  /**
   * A CROUCH stored as a float, even a whole one such as 1.0, is loaded into
   * the box as that float; it is not the onvalue, so a click turns the box on
   * and sends and saves 1.
   */
  lemma ClickAfterFloatCrouch(e: Engine, x: real)
    requires e.connected && Lookup(e.store, e.selected).crouch == R(x)
    ensures ClickCrouch(LoadProfile(e, e.selected)).e.crouch == I(1)
    ensures ClickCrouch(LoadProfile(e, e.selected)).sent == [Command("CROUCH", Int(1))]
  {
  }

  /**
   * Releasing a slider or pressing Return in its entry (`_mk_slider`,
   * gui.py:329-337): the variable takes the value, which is sent with four
   * decimals and saved for the selected weapon.
   */
  function Tune(e: Engine, f: Field, x: real): (r: Step)
    requires f != Crouch
    ensures r.e.ui.Get(f) == x
    ensures forall g :: g != Crouch && g != f ==> r.e.ui.Get(g) == e.ui.Get(g)
    ensures r.e.(ui := e.ui, store := e.store) == e
    ensures e.connected ==> r.sent == [Command(Name(f), Fixed4(x))]
    ensures e.connected ==> Lookup(r.e.store, e.selected).Get(f) == R(x)
    ensures e.connected ==> forall g :: g != f ==> Lookup(r.e.store, e.selected).Get(g) == Lookup(e.store, e.selected).Get(g)
    ensures e.connected ==> r.e.store.Keys == e.store.Keys + {e.selected}
    ensures e.connected ==> forall w :: w != e.selected ==> Lookup(r.e.store, w) == Lookup(e.store, w)
    ensures !e.connected ==> r.sent == [] && r.e.store == e.store
  {
    Apply(e.(ui := e.ui.With(f, x)), Setting(f), R(x), true)
  }

  /**
   * `_load_profile(w)`: the sliders and the crouch box show the stored
   * profile (or the defaults), and the attachment boxes are cleared until
   * the device reports them.
   */
  function LoadProfile(e: Engine, w: string): (r: Engine)
    ensures forall f :: f != Crouch ==> r.ui.Get(f) == AsReal(Lookup(e.store, w).Get(f))
    ensures r.crouch == Lookup(e.store, w).crouch
    ensures r.att == CLEARED
    ensures r.(ui := e.ui, crouch := e.crouch, att := e.att) == e
  {
    var p := Lookup(e.store, w);
    e.(ui := Sliders(AsReal(p.sens), AsReal(p.ads), AsReal(p.fov), AsReal(p.smth), AsReal(p.gain), AsReal(p.crouchM)),
       crouch := p.crouch, att := CLEARED)
  }

  /** The keys of a command list, in order. */
  function KeysOf(cmds: seq<Command>): (ks: seq<string>)
    ensures |ks| == |cmds|
    ensures forall i :: 0 <= i < |cmds| ==> ks[i] == cmds[i].key
  {
    if cmds == [] then [] else [cmds[0].key] + KeysOf(cmds[1..])
  }

  lemma {:induction false} KeysOfAppend(a: seq<Command>, b: seq<Command>)
    ensures KeysOf(a + b) == KeysOf(a) + KeysOf(b)
  {
    assert forall i :: 0 <= i < |a| ==> (a + b)[i] == a[i];
    assert forall i :: |a| <= i < |a + b| ==> (a + b)[i] == b[i - |a|];
  }

  /** The keys `_push_profile` sends, in order: CROUCH only when Ctrl is not held. */
  function PushKeys(held: bool): seq<string> {
    ["SENS", "ADS", "FOV", "SMTH", "GAIN", "CROUCHM"] + (if held then [] else ["CROUCH"])
  }

  /** The settings `_push_profile` sends first, in order. */
  const PUSHED: seq<Field> := [Sens, Ads, Fov, Smth, Gain, CrouchM]

  /**
   * `_push_profile(w)`: the stored numbers as they are, in the order of
   * `PUSHED`, then the stored CROUCH unless Ctrl is held.
   */
  function PushProfile(e: Engine, w: string): (cmds: seq<Command>)
    ensures |cmds| == if e.ctrlHeld then 6 else 7
    ensures forall i :: 0 <= i < 6 ==> cmds[i] == Command(Name(PUSHED[i]), Shown(Lookup(e.store, w).Get(PUSHED[i])))
    ensures !e.ctrlHeld ==> cmds[6] == Command("CROUCH", Int(AsInt(Lookup(e.store, w).crouch)))
    ensures KeysOf(cmds) == PushKeys(e.ctrlHeld)
    ensures forall i :: 0 <= i < |cmds| ==> !cmds[i].arg.Word?
  {
    var p := Lookup(e.store, w);
    PushedKeys(p, e.ctrlHeld);
    [Command("SENS", Shown(p.sens)), Command("ADS", Shown(p.ads)), Command("FOV", Shown(p.fov)),
     Command("SMTH", Shown(p.smth)), Command("GAIN", Shown(p.gain)), Command("CROUCHM", Shown(p.crouchM))]
    + (if !e.ctrlHeld then [Command("CROUCH", Int(AsInt(p.crouch)))] else [])
  }

  /** The keys of what `_push_profile` sends. */
  lemma PushedKeys(p: Profile, held: bool)
    ensures KeysOf([Command("SENS", Shown(p.sens)), Command("ADS", Shown(p.ads)), Command("FOV", Shown(p.fov)),
                    Command("SMTH", Shown(p.smth)), Command("GAIN", Shown(p.gain)), Command("CROUCHM", Shown(p.crouchM))]
                   + (if !held then [Command("CROUCH", Int(AsInt(p.crouch)))] else [])) == PushKeys(held)
  {
    var cmds := [Command("SENS", Shown(p.sens)), Command("ADS", Shown(p.ads)), Command("FOV", Shown(p.fov)),
                 Command("SMTH", Shown(p.smth)), Command("GAIN", Shown(p.gain)), Command("CROUCHM", Shown(p.crouchM))]
                + (if !held then [Command("CROUCH", Int(AsInt(p.crouch)))] else []);
    assert forall i :: 0 <= i < |cmds| ==> KeysOf(cmds)[i] == PushKeys(held)[i];
  }

  /** The crouch value in force: 1 while Ctrl is held, else the selected weapon's stored CROUCH. */
  function CrouchInForce(e: Engine): Num {
    if e.ctrlHeld then I(1) else Lookup(e.store, e.selected).crouch
  }

  /** `_apply_ctrl_hold`: show and send the crouch value in force, without saving it. */
  function ApplyCtrlHold(e: Engine): (r: Step)
    ensures r.e == e.(crouch := CrouchInForce(e))
    ensures e.ctrlHeld ==> r.e.crouch == I(1)
    ensures r.sent == if e.connected then [Command("CROUCH", Int(AsInt(r.e.crouch)))] else []
  {
    var v := CrouchInForce(e);
    Apply(e.(crouch := v), Setting(Crouch), v, false)
  }

  /** `first`, then `middle`, then `last`, read position by position. */
  lemma Bracket(first: Command, middle: seq<Command>, last: Command)
    ensures var cmds := [first] + middle + [last];
      && |cmds| == |middle| + 2
      && cmds[0] == first && cmds[|cmds| - 1] == last
      && (forall i :: 0 <= i < |middle| ==> cmds[i + 1] == middle[i])
      && KeysOf(cmds) == [first.key] + KeysOf(middle) + [last.key]
  {
    KeysOfAppend([first], middle);
    KeysOfAppend([first] + middle, [last]);
  }

  /** The opening of `_on_weapon_change` on an open port: the weapon, its profile, then GET:ALL. */
  function Announce(e: Engine, w: string): (cmds: seq<Command>)
    ensures |cmds| == |PushProfile(e, w)| + 2
    ensures cmds[0] == Command("WEAPON", Word(w)) && cmds[|cmds| - 1] == Command("GET", Word("ALL"))
    ensures forall i :: 0 <= i < |PushProfile(e, w)| ==> cmds[i + 1] == PushProfile(e, w)[i]
    ensures KeysOf(cmds) == ["WEAPON"] + KeysOf(PushProfile(e, w)) + ["GET"]
  {
    var ps := PushProfile(e, w);
    Bracket(Command("WEAPON", Word(w)), ps, Command("GET", Word("ALL")));
    [Command("WEAPON", Word(w))] + ps + [Command("GET", Word("ALL"))]
  }

  /** What the opening says: the keys in order, the stored numbers, and no word but the weapon and ALL. */
  lemma AnnounceSends(e: Engine, w: string)
    ensures KeysOf(Announce(e, w)) == ["WEAPON"] + PushKeys(e.ctrlHeld) + ["GET"]
    ensures forall i :: 0 <= i < 6 ==>
      Announce(e, w)[i + 1] == Command(Name(PUSHED[i]), Shown(Lookup(e.store, w).Get(PUSHED[i])))
    ensures forall i :: 0 < i < |Announce(e, w)| && Announce(e, w)[i].arg.Word? ==> Announce(e, w)[i].arg.w == "ALL"
  {
    var ps := PushProfile(e, w);
    var cmds := Announce(e, w);
    forall i | 0 < i <= |ps| ensures !cmds[i].arg.Word? {
      assert cmds[i] == ps[i - 1];
    }
    assert cmds[|cmds| - 1].arg == Word("ALL");
  }

  /**
   * `_on_weapon_change` for the weapon in the selector: load its profile
   * into the UI; with a port open, announce the weapon, push the profile,
   * ask for the state and end with the crouch value in force.
   */
  function WeaponChange(e: Engine): (r: Step)
    ensures r.e.selected == e.selected && r.e.store == e.store
    ensures r.e.connected == e.connected && r.e.ctrlHeld == e.ctrlHeld
    ensures forall f :: f != Crouch ==> r.e.ui.Get(f) == AsReal(Lookup(e.store, e.selected).Get(f))
    ensures r.e.att == CLEARED
    ensures r.e.crouch == if e.connected && e.ctrlHeld then I(1) else Lookup(e.store, e.selected).crouch
    ensures !e.connected ==> r.sent == []
    ensures e.connected ==> r.sent == Announce(e, e.selected) + [Command("CROUCH", Int(AsInt(r.e.crouch)))]
  {
    var w := e.selected;
    var e1 := LoadProfile(e, w);
    assert e1.store == e.store && e1.ctrlHeld == e.ctrlHeld;
    if !e.connected then Step(e1, [])
    else
      var h := ApplyCtrlHold(e1);
      Step(h.e, Announce(e, w) + h.sent)
  }

  /**
   * On an open port a weapon change writes WEAPON, the pushed profile,
   * GET:ALL and finally CROUCH with the value in force: the stored numbers,
   * and no word but the weapon name and ALL.
   */
  lemma WeaponChangeSends(e: Engine)
    requires e.connected
    ensures KeysOf(WeaponChange(e).sent) == ["WEAPON"] + PushKeys(e.ctrlHeld) + ["GET", "CROUCH"]
    ensures WeaponChange(e).sent[0] == Command("WEAPON", Word(e.selected))
    ensures WeaponChange(e).sent[|WeaponChange(e).sent| - 1] == Command("CROUCH", Int(AsInt(WeaponChange(e).e.crouch)))
    ensures forall i :: 0 <= i < 6 ==>
      WeaponChange(e).sent[i + 1] == Command(Name(PUSHED[i]), Shown(Lookup(e.store, e.selected).Get(PUSHED[i])))
    ensures forall i :: 0 < i < |WeaponChange(e).sent| && WeaponChange(e).sent[i].arg.Word? ==>
      WeaponChange(e).sent[i].arg.w == "ALL"
  {
    var r := WeaponChange(e);
    var a := Announce(e, e.selected);
    var c := Command("CROUCH", Int(AsInt(r.e.crouch)));
    AnnounceSends(e, e.selected);
    KeysOfAppend(a, [c]);
    assert forall i :: 0 <= i < |a| ==> r.sent[i] == a[i];
    assert r.sent[|r.sent| - 1] == c;
    assert KeysOf([c]) == ["CROUCH"];
  }

  /** Choosing a weapon in the (read-only) selector. */
  function Pick(e: Engine, w: string): (r: Step)
    ensures r.e.selected == w && r.e.store == e.store
    ensures r.e.connected == e.connected && r.e.ctrlHeld == e.ctrlHeld
    ensures forall f :: f != Crouch ==> r.e.ui.Get(f) == AsReal(Lookup(e.store, w).Get(f))
    ensures r.e.att == CLEARED
    ensures r.e.crouch == if e.connected && e.ctrlHeld then I(1) else Lookup(e.store, w).crouch
    ensures !e.connected ==> r.sent == []
    ensures e.connected ==> r.sent == Announce(e, w) + [Command("CROUCH", Int(AsInt(r.e.crouch)))]
  {
    assert Announce(e.(selected := w), w) == Announce(e, w);
    WeaponChange(e.(selected := w))
  }

  /** The GET STATE button: `_send("GET:ALL")`, which writes only while a port is open. */
  function RequestState(e: Engine): (r: Step)
    ensures r.e == e
    ensures r.sent == if e.connected then [Command("GET", Word("ALL"))] else []
  {
    Step(e, if e.connected then [Command("GET", Word("ALL"))] else [])
  }

  /**
   * The Connect/Disconnect button (`_toggle_conn`). `portOk` says whether a
   * port was chosen and opening it succeeded; on success the selected
   * weapon is pushed as by `_on_weapon_change`.
   */
  function ToggleConnection(e: Engine, portOk: bool): (r: Step)
    ensures e.connected ==> r == Step(e.(connected := false), [])
    ensures !e.connected && !portOk ==> r == Step(e, [])
    ensures !e.connected && portOk ==> r.e.connected && r.e.ctrlHeld == e.ctrlHeld
    ensures !e.connected && portOk ==>
      forall f :: f != Crouch ==> r.e.ui.Get(f) == AsReal(Lookup(e.store, e.selected).Get(f))
    ensures !e.connected && portOk ==> r.e.att == CLEARED
    ensures !e.connected && portOk ==>
      r.e.crouch == if e.ctrlHeld then I(1) else Lookup(e.store, e.selected).crouch
    ensures !e.connected && portOk ==> r.sent == Announce(e, e.selected) + [Command("CROUCH", Int(AsInt(r.e.crouch)))]
    ensures r.e.store == e.store && r.e.selected == e.selected
  {
    if e.connected then Step(e.(connected := false), [])
    else if !portOk then Step(e, [])
    else
      assert Announce(e.(connected := true), e.selected) == Announce(e, e.selected);
      WeaponChange(e.(connected := true))
  }

  /** A Ctrl key goes down (`_on_kp`): on the first press, crouch is forced to 1 and sent, unsaved. */
  function Press(e: Engine): (r: Step)
    ensures r.e.ctrlHeld
    ensures e.ctrlHeld ==> r == Step(e, [])
    ensures !e.ctrlHeld ==> r.e == e.(ctrlHeld := true, crouch := I(1))
    ensures !e.ctrlHeld ==> r.sent == if e.connected then [Command("CROUCH", Int(1))] else []
  {
    if e.ctrlHeld then Step(e, [])
    else Apply(e.(ctrlHeld := true, crouch := I(1)), Setting(Crouch), I(1), false)
  }

  /** A Ctrl key comes up (`_on_kr`): the selected weapon's stored CROUCH is restored and sent, unsaved. */
  function Release(e: Engine): (r: Step)
    ensures !r.e.ctrlHeld
    ensures !e.ctrlHeld ==> r == Step(e, [])
    ensures e.ctrlHeld ==> r.e == e.(ctrlHeld := false, crouch := Lookup(e.store, e.selected).crouch)
    ensures e.ctrlHeld ==> r.sent == if e.connected then [Command("CROUCH", Int(AsInt(r.e.crouch)))] else []
  {
    if !e.ctrlHeld then Step(e, [])
    else
      var base := Lookup(e.store, e.selected).crouch;
      Apply(e.(ctrlHeld := false, crouch := base), Setting(Crouch), base, false)
  }

  /** Auto-repeat of a held Ctrl key sends nothing more. */
  lemma PressIdempotent(e: Engine)
    ensures Press(Press(e).e) == Step(Press(e).e, [])
  {
  }

  /**
   * A Ctrl press and release leave the store alone and the crouch box at
   * the stored value; on the wire, CROUCH:1 is followed by the stored value.
   */
  lemma PressRelease(e: Engine)
    requires !e.ctrlHeld
    ensures Release(Press(e).e).e == e.(crouch := Lookup(e.store, e.selected).crouch)
    ensures e.connected ==> (Press(e).sent + Release(Press(e).e).sent
      == [Command("CROUCH", Int(1)), Command("CROUCH", Int(AsInt(Lookup(e.store, e.selected).crouch)))])
  {
  }

  /** What `_on_weapon_change` shows in the sliders is what it pushes to the device. */
  lemma PushAgreesWithUI(e: Engine)
    requires e.connected
    ensures forall i :: 0 <= i < 6 ==>
      && WeaponChange(e).sent[i + 1].key == Name(PUSHED[i])
      && WeaponChange(e).sent[i + 1].arg.Shown?
      && AsReal(WeaponChange(e).sent[i + 1].arg.n) == WeaponChange(e).e.ui.Get(PUSHED[i])
  {
    WeaponChangeSends(e);
  }

  /** Applying a setting with `save` and reading the store back yields the persisted value. */
  lemma ApplyThenLookup(e: Engine, f: Field, v: Num)
    requires e.connected
    ensures Lookup(Apply(e, Setting(f), v, true).e.store, e.selected).Get(f) == Persisted(f, v)
    ensures AsReal(Persisted(f, v)) == if f == Crouch then AsInt(v) as real else AsReal(v)
  {
  }
}
