/**
 * A whole GUI session: the application as constructed (gui.py:138-155),
 * with the first weapon selected (gui.py:231) and its profile loaded
 * (gui.py:316), then any sequence of user, keyboard and polling events,
 * each dispatched to its handler. Properties that hold over every session
 * are proved here.
 */
module Session {
  import opened Options
  import opened Text
  import opened ProfileStore
  import opened Commands
  import opened Transport
  import opened Reconciler
  import opened DeviceSync

  /** Everything that drives the engine. */
  datatype Event =
    | Choose(w: string)          // <<ComboboxSelected>>
    | HoloBox | X8Box | SilBox | MbBox | CrouchBox
    | Slide(f: Field, x: real)   // slider release or Return in its entry
    | GetStateButton
    | ConnectButton(portOk: bool)
    | CtrlDown | CtrlUp
    | Poll(lines: seq<string>)   // one `_tick`, with the lines queued since the last

  /** What the widgets can produce: the selector is read-only and CROUCH has no slider. */
  predicate Allowed(ev: Event) {
    && (ev.Choose? ==> ev.w in WEAPONS)
    && (ev.Slide? ==> ev.f != Crouch)
  }

  predicate AllAllowed(evs: seq<Event>) {
    forall i :: 0 <= i < |evs| ==> Allowed(evs[i])
  }

  function Handle(e: Engine, ev: Event): Step
    requires Allowed(ev)
  {
    match ev
    case Choose(w) => Pick(e, w)
    case HoloBox => ClickHolo(e)
    case X8Box => ClickX8(e)
    case SilBox => ClickSil(e)
    case MbBox => ClickMb(e)
    case CrouchBox => ClickCrouch(e)
    case Slide(f, x) => Tune(e, f, x)
    case GetStateButton => RequestState(e)
    case ConnectButton(ok) => ToggleConnection(e, ok)
    case CtrlDown => Press(e)
    case CtrlUp => Release(e)
    case Poll(lines) => Step(Tick(e, lines), [])
  }

  /** The events in order; the commands are concatenated in the order they were written. */
  function Run(e: Engine, evs: seq<Event>): Step
    requires AllAllowed(evs)
    decreases |evs|
  {
    if evs == [] then Step(e, [])
    else
      var h := Handle(e, evs[0]);
      var t := Run(h.e, evs[1..]);
      Step(t.e, h.sent + t.sent)
  }

  /** The state after `ModernApp.__init__`: settings loaded, first weapon selected and shown, no port. */
  function Start(file: Option<Store>): (e: Engine)
    ensures e.selected == WEAPONS[0] && !e.connected && !e.ctrlHeld
    ensures e.store == Loaded(file) && Covers(e.store, WEAPONS)
    ensures forall f :: f != Crouch ==> e.ui.Get(f) == AsReal(Lookup(Loaded(file), WEAPONS[0]).Get(f))
    ensures e.crouch == Lookup(Loaded(file), WEAPONS[0]).crouch
    ensures e.att == CLEARED
  {
    var d := DEFAULT;
    var ui := Sliders(AsReal(d.sens), AsReal(d.ads), AsReal(d.fov), AsReal(d.smth), AsReal(d.gain), AsReal(d.crouchM));
    LoadProfile(Engine(WEAPONS[0], ui, I(0), CLEARED, false, false, Loaded(file)), WEAPONS[0])
  }

  /** The selector shows a listed weapon and every listed weapon has a profile. */
  predicate Inv(e: Engine) {
    e.selected in WEAPONS && Covers(e.store, WEAPONS)
  }

  lemma StartInv(file: Option<Store>)
    ensures Inv(Start(file))
  {
  }

  lemma HandleInv(e: Engine, ev: Event)
    requires Inv(e) && Allowed(ev)
    ensures Inv(Handle(e, ev).e)
  {
    match ev
    case Slide(f, x) =>
      assert Handle(e, ev).e.store.Keys == e.store.Keys || Handle(e, ev).e.store.Keys == e.store.Keys + {e.selected};
    case CrouchBox =>
      assert Handle(e, ev).e.store.Keys == e.store.Keys || Handle(e, ev).e.store.Keys == e.store.Keys + {e.selected};
    case _ =>
  }

  /** Every state a session reaches keeps the invariant. */
  lemma {:induction false} RunInv(e: Engine, evs: seq<Event>)
    requires Inv(e) && AllAllowed(evs)
    ensures Inv(Run(e, evs).e)
    decreases |evs|
  {
    if evs != [] {
      HandleInv(e, evs[0]);
      RunInv(Handle(e, evs[0]).e, evs[1..]);
    }
  }

  /**
   * Sessions poll with the corrected `Tick`. The tick as written keeps the
   * same invariant and the same store, port and Ctrl state: it differs only
   * in which lines it goes on to read.
   */
  lemma PollAsWrittenInv(p: Poller, lines: seq<string>)
    requires Inv(p.e)
    ensures Inv(TickAsWritten(p, lines).e)
    ensures TickAsWritten(p, lines).e.store == p.e.store
    ensures TickAsWritten(p, lines).e.connected == p.e.connected
  {
  }

  /** An event that does not open a port. */
  predicate Offline(ev: Event) {
    !(ev.ConnectButton? && ev.portOk)
  }

  /** Without an open port a handler writes nothing and saves nothing. */
  lemma HandleOffline(e: Engine, ev: Event)
    requires !e.connected && Allowed(ev) && Offline(ev)
    ensures Handle(e, ev).sent == []
    ensures Handle(e, ev).e.store == e.store && !Handle(e, ev).e.connected
  {
  }

  /** A session that never opens a port writes nothing and never changes the settings. */
  lemma {:induction false} RunOffline(e: Engine, evs: seq<Event>)
    requires !e.connected && AllAllowed(evs)
    requires forall i :: 0 <= i < |evs| ==> Offline(evs[i])
    ensures Run(e, evs).sent == []
    ensures Run(e, evs).e.store == e.store
    decreases |evs|
  {
    if evs != [] {
      HandleOffline(e, evs[0]);
      RunOffline(Handle(e, evs[0]).e, evs[1..]);
    }
  }

  /** Only a slider or the crouch box saves anything; attachments, hotkeys and syncs never do. */
  lemma StoreOnlyBySettings(e: Engine, ev: Event)
    requires Allowed(ev) && !ev.Slide? && !ev.CrouchBox?
    ensures Handle(e, ev).e.store == e.store
  {
  }

  /** After a click on Holo or 8x the two boxes are never both ticked. */
  lemma ScopesExclusive(e: Engine, ev: Event)
    requires ev == HoloBox || ev == X8Box
    ensures !(Handle(e, ev).e.att.holo && Handle(e, ev).e.att.x8)
  {
  }

  /** The device, by contrast, can report both scopes, and the sync shows both. */
  lemma SyncMayShowBothScopes(e: Engine, st: StatusParser.Status)
    requires st.att == Some("HOLO,X8")
    ensures Sync(e, st).att.holo && Sync(e, st).att.x8
  {
    var att := "HOLO,X8";
    assert OccursAt(att, "HOLO", 0) by { assert att[0..4] == "HOLO"; }
    assert OccursAt(att, "X8", 5) by { assert att[5..7] == "X8"; }
  }

  /** The GET STATE button puts exactly `GET:ALL` and a newline on an open port, and nothing on a closed one. */
  lemma RequestStateWire(e: Engine, fmt: Format)
    ensures Wire(e.connected, Handle(e, GetStateButton).sent, fmt) == if e.connected then "GET:ALL\n" else ""
  {
    var cmds := Handle(e, GetStateButton).sent;
    if e.connected {
      assert cmds == [Command("GET", Word("ALL"))];
      assert Render(cmds[0], fmt) == "GET" + ":" + "ALL" == "GET:ALL";
      assert Texts(cmds, fmt) == ["GET:ALL"];
      assert !EndsWithNewline("GET:ALL");
      assert Transmit(true, ["GET:ALL"]) == Send(true, "GET:ALL") + Transmit(true, []);
    }
  }

  /** Upper-case letters and digits make a key. */
  lemma PlainKey(k: string)
    requires k != [] && forall j :: 0 <= j < |k| ==> 'A' <= k[j] <= 'Z' || '0' <= k[j] <= '9'
    ensures KeyText(k)
  {
  }

  /** Every listed weapon name is free of whitespace and colons. */
  lemma WeaponNamesAreWords()
    ensures forall w :: w in WEAPONS ==> KeyText(w)
  {
    forall w | w in WEAPONS ensures KeyText(w) {
      var i :| 0 <= i < |WEAPONS| && WEAPONS[i] == w;
      assert i == 0 || i == 1 || i == 2 || i == 3 || i == 4 || i == 5 || i == 6 || i == 7 || i == 8 || i == 9;
      PlainKey(w);
    }
  }

  lemma NamesAreKeys(f: Field)
    ensures KeyText(Name(f))
  {
  }

  /** The commands one handler writes. */
  predicate AllProper(cmds: seq<Command>) {
    forall i :: 0 <= i < |cmds| ==> Proper(cmds[i])
  }

  /** The keys the engine writes. */
  const KEYS: seq<string> :=
    ["WEAPON", "SENS", "ADS", "FOV", "SMTH", "GAIN", "CROUCHM", "CROUCH", "GET", "HOLO", "X8", "SIL", "MB"]

  lemma KeysAreKeyText()
    ensures forall k :: k in KEYS ==> KeyText(k)
  {
    forall k | k in KEYS ensures KeyText(k) {
      var i :| 0 <= i < |KEYS| && KEYS[i] == k;
      assert i == 0 || i == 1 || i == 2 || i == 3 || i == 4 || i == 5 || i == 6
          || i == 7 || i == 8 || i == 9 || i == 10 || i == 11 || i == 12;
      PlainKey(k);
    }
  }

  /** The keys of a weapon change, whether or not Ctrl is held. */
  lemma ChangeKeysAreKeyText(held: bool)
    ensures forall k :: k in ["WEAPON"] + PushKeys(held) + ["GET", "CROUCH"] ==> KeyText(k)
  {
    KeysAreKeyText();
    var ks := ["WEAPON"] + PushKeys(held) + ["GET", "CROUCH"];
    assert forall k :: k in ks ==> k in KEYS;
  }

  lemma WeaponChangeProper(e: Engine)
    requires e.selected in WEAPONS
    ensures AllProper(WeaponChange(e).sent)
  {
    var r := WeaponChange(e);
    if e.connected {
      WeaponChangeSends(e);
      ChangeKeysAreKeyText(e.ctrlHeld);
      WeaponNamesAreWords();
      assert Token("ALL");
      var ks := KeysOf(r.sent);
      forall i | 0 <= i < |r.sent| ensures Proper(r.sent[i]) {
        assert ks[i] in ks;
      }
    }
  }

  /** Every command a handler writes survives the line framing. */
  lemma HandleProper(e: Engine, ev: Event)
    requires Inv(e) && Allowed(ev)
    ensures AllProper(Handle(e, ev).sent)
  {
    match ev
    case Choose(w) => WeaponChangeProper(e.(selected := w));
    case ConnectButton(ok) =>
      if !e.connected && ok { WeaponChangeProper(e.(connected := true)); }
    case Slide(f, x) =>
      NamesAreKeys(f);
      assert Handle(e, ev).sent == [] || Handle(e, ev).sent == [Command(Name(f), Fixed4(x))];
    case HoloBox => OneIntProper(Handle(e, ev).sent, "HOLO");
    case X8Box => OneIntProper(Handle(e, ev).sent, "X8");
    case SilBox => OneIntProper(Handle(e, ev).sent, "SIL");
    case MbBox => OneIntProper(Handle(e, ev).sent, "MB");
    case CrouchBox => OneIntProper(Handle(e, ev).sent, "CROUCH");
    case CtrlDown => OneIntProper(Handle(e, ev).sent, "CROUCH");
    case CtrlUp => OneIntProper(Handle(e, ev).sent, "CROUCH");
    case GetStateButton =>
      assert KeyText("GET");
    case Poll(_) =>
  }

  /** At most one command with an integer value under a plain key. */
  lemma OneIntProper(cmds: seq<Command>, key: string)
    requires cmds == [] || (|cmds| == 1 && cmds[0].key == key && cmds[0].arg.Int?)
    requires key == "HOLO" || key == "X8" || key == "SIL" || key == "MB" || key == "CROUCH"
    ensures AllProper(cmds)
  {
  }

  lemma {:induction false} RunProper(e: Engine, evs: seq<Event>)
    requires Inv(e) && AllAllowed(evs)
    ensures AllProper(Run(e, evs).sent)
    decreases |evs|
  {
    if evs != [] {
      HandleProper(e, evs[0]);
      HandleInv(e, evs[0]);
      RunProper(Handle(e, evs[0]).e, evs[1..]);
      AllProperAppend(Handle(e, evs[0]).sent, Run(Handle(e, evs[0]).e, evs[1..]).sent);
    }
  }

  lemma AllProperAppend(a: seq<Command>, b: seq<Command>)
    requires AllProper(a) && AllProper(b)
    ensures AllProper(a + b)
  {
    assert forall i :: 0 <= i < |a + b| ==> (a + b)[i] == if i < |a| then a[i] else b[i - |a|];
  }

  /**
   * Whatever a session writes, the device's line reader gets back as the
   * same commands, each splitting into the key and value written.
   */
  lemma SessionFramed(file: Option<Store>, evs: seq<Event>, fmt: Format)
    requires AllAllowed(evs) && Sound(fmt)
    ensures var sent := Run(Start(file), evs).sent;
      && Frame(Wire(true, sent, fmt)).rest == []
      && |Frame(Wire(true, sent, fmt)).lines| == |sent|
      && forall i :: 0 <= i < |sent| ==>
           Unrender(Frame(Wire(true, sent, fmt)).lines[i]) == (sent[i].key, ArgText(sent[i].arg, fmt))
  {
    StartInv(file);
    RunProper(Start(file), evs);
    WireFramed(Run(Start(file), evs).sent, fmt);
  }
}
