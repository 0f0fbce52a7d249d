/**
 * A status line whose `[-\d.]+` capture is not a number (`ST:W=AK47 S=-`)
 * makes `float` raise inside `safe_upd` (gui.py:447-450). `_tick`
 * (gui.py:424-433) only catches `Empty`, so the exception leaves it before
 * `self.after(50, self._tick)` and the queue is never polled again. The
 * corrected tick skips the unreadable number and keeps reading.
 */
module PollingFinding {
  import opened Options
  import opened Text
  import opened StatusParser
  import opened StatusExamples
  import opened ProfileStore
  import opened Reconciler
  import opened DeviceSync

  /** `ST:W=AK47 S=-`: the regex accepts `-` as a `[-\d.]+` value. */
  const BAD := "ST:W=AK47 " + "S=-"

  lemma BadWeapon()
    ensures Find(BAD, 3, |BAD|, "W=", Word) == Some(Hit(3, "AK47", 9))
  {
    var l := BAD;
    assert l[3] == 'W' && l[4] == '=';
    assert l[5] == 'A' && l[6] == 'K' && l[7] == '4' && l[8] == '7' && l[9] == ' ';
    FieldAt(l, 3, 5, |l|, "W=", Word, 9);
    assert l[5..9] == "AK47";
  }

  lemma BadSens()
    ensures Find(BAD, 9, |BAD|, "S=", Number) == Some(Hit(10, "-", 13))
  {
    var l := BAD;
    assert |l| == 13 && l[9] == ' ' && l[10] == 'S' && l[11] == '=' && l[12] == '-';
    FieldAfter(l, 9, 10, 12, |l|, "S=", Number, 13);
    assert l[12..13] == "-";
  }

  lemma BadTbs()
    ensures Find(BAD, 9, 10, "T=", Number) == None
  {
    assert BAD[9] == ' ';
    FindSkip(BAD, 9, 10, "T=", Number);
  }

  /** The groups of the bad line. */
  const BAD_STATUS := Status("AK47", None, "-", None, None, None, None, None, None, None)

  lemma ParseBadLine()
    ensures ParseStatus(BAD) == Some(BAD_STATUS)
  {
    assert TagAt(BAD, 0, "ST:");
    BadWeapon();
    BadSens();
    BadTbs();
  }

  /** `float("-")` raises. */
  lemma DashUnreadable()
    ensures ParseNumber("-") == None
  {
    assert Unsigned("-") == [];
  }

  /** `float("0.78")` is 0.78. */
  lemma ReadSens()
    ensures ParseNumber("0.78") == Some(0.78)
  {
    var t := "0.78";
    assert Unsigned(t) == t;
    assert FirstIndex(t, '.') == 1;
    assert WholePart(t) == "0" && FracPart(t) == "78";
    assert "78"[..1] == "7" && "7"[..0] == [];
    assert DigitsValue("78") == 78;
    assert Pow10(2) == 100;
  }

  /** As written, the handler raises on the bad line, after switching to AK47. */
  lemma BadLineRaises(e: Engine)
    ensures SyncAsWritten(e, BAD_STATUS) == Raised(Base(e, BAD_STATUS))
  {
    DashUnreadable();
  }

  /**
   * As written, the bad line stops polling: the good line queued behind it
   * stays in the queue, and no later batch ever changes the UI.
   */
  lemma PollingStops(e: Engine, later: seq<string>)
    ensures var p := TickAsWritten(Poller(e, true, []), [BAD, MINIMAL]);
      && !p.alive
      && p.e == Base(e, BAD_STATUS)
      && p.backlog == [MINIMAL]
      && TickAsWritten(p, later).e == p.e
  {
    ParseBadLine();
    BadLineRaises(e);
    assert [BAD, MINIMAL][1..] == [MINIMAL];
  }

  const MINIMAL_STATUS := Status("AK47", None, "0.78", None, None, None, None, None, None, None)

  /** Corrected, the bad line still selects AK47; its unreadable sensitivity is skipped. */
  lemma ReceiveBad(e: Engine)
    ensures Receive(e, BAD).selected == "AK47"
  {
    ParseBadLine();
    assert WEAPONS[0] == "AK47";
  }

  /** The good line after it sets the sensitivity. */
  lemma ReceiveMinimal(e: Engine)
    ensures Receive(e, MINIMAL).selected == "AK47"
    ensures Receive(e, MINIMAL).ui.sens == 0.78
  {
    ParseMinimalLine();
    ReadSens();
    assert WEAPONS[0] == "AK47";
    assert Sens in SYNCED;
    var r := Sync(e, MINIMAL_STATUS);
    assert Reading(MINIMAL_STATUS, Sens) == Some("0.78");
    assert r.ui.Get(Sens) == 0.78;
  }

  /** Corrected, polling goes on: the good line queued behind the bad one is adopted. */
  lemma CorrectedKeepsPolling(e: Engine)
    ensures Tick(e, [BAD, MINIMAL]).selected == "AK47"
    ensures Tick(e, [BAD, MINIMAL]).ui.sens == 0.78
  {
    var e1 := Receive(e, BAD);
    var e2 := Receive(e1, MINIMAL);
    ReceiveMinimal(e1);
    assert [BAD, MINIMAL][1..] == [MINIMAL];
    assert [MINIMAL][1..] == [];
    assert Tick(e1, [MINIMAL]) == Tick(e2, []) == e2;
  }
}
