# ESP32 recoil GUI: a Dafny model of its reconciliation core

`gui.py` is a desktop front end for an ESP32 recoil controller. It keeps
one settings profile per weapon in a JSON file. It writes `KEY:VALUE`
commands, one per line, to a serial port. It reads `ST:...` status lines
back from the device and mirrors them in its sliders and check boxes.

This project models the part of that program that decides what is sent,
what is saved and what is shown:

- **Line framing and sending** (`SerialManager._loop` and `send`), module `Transport`.
  The reader loop splits the byte stream at newlines, strips each line and
  hands on the non-empty ones. The writer adds a newline unless the text
  already ends with one, and writes nothing while no port is open.
- **Python built-ins the core relies on**, module `Text`:
  - `str.strip` with Python's whitespace set;
  - the `in` substring test;
  - `str(int)`;
  - `float` on the digit-and-dot captures of the status regex.
- **The status line** (`STATE_RE`), modules `StatusParser` and `StatusExamples`.
  It is modelled as an ordered, case-insensitive field scan. Modules
  `ScanFacts` and `StatusRender` prove that the scan reads back every field
  of a status line in the format the firmware prints.
- **The settings store** (`Store`), module `ProfileStore`: load with seeding
  of the weapon list, get, and set.
- **The handlers of `ModernApp`**, module `Reconciler`. The state is an
  `Engine` record. Each handler is a function from a state to the next state
  and the commands it writes. It covers:
  - `_apply`, `_load_profile`, `_push_profile`, `_on_weapon_change` and `_toggle_conn`;
  - the check boxes, the sliders and the GET STATE button;
  - the Ctrl hotkey handlers and `_apply_ctrl_hold`.
- **Adopting the device's state**, module `DeviceSync`: `_tick` and
  `_sync_from_device`. The source's behaviour on an unreadable number is
  modelled as written, next to a corrected handler (see Findings).
- **The text of a command**, module `Commands`: `f"{key}:{value}"`.
  How a float is spelled is a parameter, because binary floating point is
  not modelled.
- **Whole sessions**, module `Session`: the application as constructed, then
  any sequence of events. A poll event drains the queue with the corrected
  tick, so the session results below hold for the program with the Findings
  fix applied (see `Session.Handle` under Left out). This module proves
  properties of every session:
  - the selected weapon always has a profile;
  - a session that never opens a port writes and saves nothing;
  - everything written is framed back by a line reader as the same commands.

Numbers loaded from JSON are `Num = I(int) | R(real)`. Python's `int()` on a
float is truncation toward zero (`ProfileStore.Trunc`). Floats are exact reals.

## Model

| member | source | states |
|---|---|---|
| Text.Strip | gui.py:88 | `strip()` removes exactly the leading and trailing whitespace: the result sits inside the input with only whitespace around it, has no whitespace at either end, and is empty exactly when the input is all whitespace |
| Text.StripIdempotent | gui.py:88 | stripping a stripped line changes nothing |
| Text.Contains | gui.py:460-463 | `needle in hay` holds exactly when the needle occurs at some index of the haystack |
| Text.ParseNumber | gui.py:448 | `float` on a `[-\d.]+` capture succeeds exactly when the text is a numeral: an optional minus, at least one digit, at most one point. Its value is the digits read as one decimal number, divided by ten to the number of digits after the point, negated after a minus; so `0.78` reads as 78/100 and `-12` as minus twelve |
| Text.DigitsValueAppend | gui.py:448 | the decimal value of two digit strings written one after the other is the first shifted left by the length of the second, plus the second |
| Text.IntToDecimalRoundTrip | gui.py:412 | what `f"{int(v)}"` prints, `float` reads back as the same number, negative numbers included |
| Transport.Split | gui.py:86-87 | repeated `partition(b"\n")` yields pieces and a rest that hold no newline |
| Transport.SplitJoins | gui.py:86-87 | the pieces, each followed by its newline, then the rest, are the whole buffer: nothing is lost or reordered |
| Transport.SplitUnique | gui.py:86-87 | newline-free pieces and rest are recovered exactly from the bytes they flatten to |
| Transport.SplitAppend | gui.py:84-87 | where the buffer is cut does not depend on how the bytes arrived: splitting `a + b` is splitting `a`, then `a`'s rest followed by `b` |
| Transport.Frame | gui.py:86-89 | the reader's view of a buffer: every line handed on is non-empty, stripped and newline-free, and the kept rest holds no newline |
| Transport.FrameAppend | gui.py:84-89 | chunking is invisible to the lines handed on and to the rest kept |
| Transport.Drain | gui.py:86-89 | the inner `while b"\n" in buf` loop hands on exactly the lines of the buffer and keeps exactly its unterminated tail |
| Transport.ReaderLoop | gui.py:79-93 | over any sequence of reads, empty reads included, the lines handed on are those of the whole stream framed at once, and the buffer keeps its newline-free tail |
| Transport.Terminated | gui.py:98 | the text gets a newline only if it does not already end with one: the result ends with a newline, starts with the text, and is at most one character longer |
| Transport.Send | gui.py:95-100 | nothing is written exactly when the port is not open; otherwise the text followed by at most one added newline |
| Transport.TransmitClosed | gui.py:96 | a closed port writes nothing however many texts are sent |
| Transport.TransmitFramed | gui.py:79-100 | stripped, non-empty, newline-free texts written by `send` are framed back by the reader loop as exactly those lines, in order, with nothing left over |
| Commands.Render | gui.py:413 | `f"{key}:{value}"` splits back at its first colon into the key and the value text, and for a proper command is a non-empty, newline-free line that `strip()` leaves alone |
| Commands.WireFramed | gui.py:417-419 | what a sequence of `_send` calls writes, the device's line reader gets back as the same number of lines, each splitting into the key and value that were sent |
| Commands.IntArgReads | gui.py:412 | an integer value sent as `int(val)` reads back through `float` as that number |
| StatusParser.Find | gui.py:40-49 | a field's search returns the first position in range where its tag is followed by a value of its shape, with the captured value; none exactly when no such position exists |
| StatusParser.FindIsFirst | gui.py:40-49 | the search returns the first occurrence in range, whichever it is |
| StatusParser.FindIsNone | gui.py:40-49 | the search fails when the field occurs nowhere in range |
| StatusParser.TbsBeforeSens | gui.py:41-42 | a `T=` value found before the `S=` tag ends before that tag |
| StatusParser.ScanStatus | gui.py:38-51 | a scanned line starts with `ST:` (any case), its fields lie in the grammar's order, and each captured value has its field's shape |
| StatusParser.Groups | gui.py:40-49 | the groups of a scan have the grammar's shapes: a whitespace-free weapon, digit-dot-minus numbers, `0`/`1` flags |
| StatusParser.ParseStatus | gui.py:38-51 | `STATE_RE.match` matches only lines starting with the marker, and then always carries a weapon and a sensitivity of the right shapes |
| StatusExamples.ParseMinimalLine | gui.py:38-51 | `ST:W=AK47 S=0.78` yields weapon AK47 and sensitivity 0.78, with every optional group absent |
| StatusExamples.ParseFullLine | gui.py:38-51 | `ST:W=M249 T=12 S=1.1 A=0.9 F=95 G=2.0 SM=0.4 C=1 ON=1 ATT=HOLO,SIL` yields all ten groups with the given values |
| StatusRender.RenderParses | gui.py:38-51 | every status the firmware can print, laid out as the format at gui.py:38-51 documents it (each present field once, in order, one space apart, no `=` in the attachment list), is matched by the scan and read back with every group equal to the field printed: the scan inverts the firmware's printer. The regex agrees when the weapon holds no `W=` (any case); otherwise its greedy `.*W=` starts at the later `W=` (see ParseStatus under Left out) |
| StatusRender.PrintedParses | gui.py:38-51 | a line that starts with the printed `ST:W=.. [T=..] S=..` head, followed by a space or the end of the line, and whose later optional groups read as `st`'s, is read back as `st` |
| StatusRender.SlotsScan | gui.py:43-49 | the printed optional fields after `SENS` are each found, in order, with the value printed, and each absent one is reported absent |
| StatusRender.ScanReads | gui.py:38-51 | a line whose head and optional fields are found where `st` places them is read as `st` |
| ProfileStore.Trunc | gui.py:412 | `int(x)` on a float truncates toward zero: within one of `x`, never farther from zero |
| ProfileStore.Lookup | gui.py:130-131 | `Store.get` gives the stored profile of a known weapon and the defaults otherwise |
| ProfileStore.Set | gui.py:133-135 | `Store.set` makes the weapon known, writes the one key, keeps the weapon's other keys (from the defaults if it was unknown) and leaves every other weapon alone |
| ProfileStore.SetSame | gui.py:133-135 | writing back the value a known weapon already has changes nothing |
| ProfileStore.SetSetSameKey | gui.py:133-135 | the last write to a key wins |
| ProfileStore.Seed | gui.py:120-122 | after seeding, every listed weapon has a profile; stored profiles are kept and only missing weapons get the defaults |
| ProfileStore.Loaded | gui.py:115-123 | after `load`, every listed weapon has a profile, every profile of the file is kept, and any other profile is the default of a listed weapon; a missing or unreadable file reads as an empty table |
| ProfileStore.SeedLoop | gui.py:120-122 | the `for w in WEAPONS` loop computes the seeded table |
| ProfileStore.Load | gui.py:115-123 | `load` leaves the seeded table of the file in memory, covering every weapon |
| ProfileStore.SeedCovered | gui.py:120-122 | seeding a table that already covers the weapons changes nothing |
| ProfileStore.LoadSaved | gui.py:123 | what `load` saves, the next `load` reads back unchanged |
| Reconciler.Apply | gui.py:410-415 | with no port open nothing at all happens; otherwise exactly one command under the key, `int(val)` for the flags and CROUCH and `float(val)` otherwise, and only a saved setting, never an attachment, is written for the selected weapon with every other weapon and key untouched |
| Reconciler.ClickHolo | gui.py:246-248 | ticking Holo clears 8x; after the click the two are never both ticked; Silencer and Boost are untouched; the new Holo state is sent, unsaved |
| Reconciler.ClickX8 | gui.py:249-251 | ticking 8x clears Holo; after the click the two are never both ticked; the new 8x state is sent, unsaved |
| Reconciler.ClickSil | gui.py:255 | the Silencer box flips and its new state is sent, unsaved |
| Reconciler.ClickMb | gui.py:256 | the Boost box flips and its new state is sent, unsaved |
| Reconciler.ClickCrouch | gui.py:292 | Tk compares the box's variable with the onvalue `1`: the box becomes 0 when it held the integer 1 and 1 otherwise, a float such as `1.0` or `1.5` included; on an open port the new value is sent and saved as the selected weapon's CROUCH, every other key of it kept, every other weapon's profile untouched and no weapon but the selected one added; with none, nothing is sent or saved |
| Reconciler.Tune | gui.py:329-337 | a slider release sets that slider only; on an open port it sends the value with four decimals and saves it for the selected weapon, every other key of it kept, every other weapon's profile untouched and no weapon but the selected one added; with none, nothing is sent or saved |
| Reconciler.LoadProfile | gui.py:394-401 | the sliders and the crouch box show the weapon's stored profile (or the defaults), the crouch box holding the stored CROUCH as it is, integer or float; the attachment boxes are cleared; nothing else changes |
| Reconciler.ClickAfterFloatCrouch | gui.py:292 | after loading a CROUCH stored as any float, a click on the crouch box turns it on and sends `CROUCH:1` |
| Reconciler.PushProfile | gui.py:403-408 | SENS, ADS, FOV, SMTH, GAIN, CROUCHM with the stored numbers as they are, then CROUCH as `int` only when Ctrl is not held |
| Reconciler.ApplyCtrlHold | gui.py:483-485 | the crouch box holds 1 while Ctrl is held and the stored CROUCH, as stored, otherwise; that value is sent as `int(val)`, unsaved |
| Reconciler.Announce | gui.py:389-391 | WEAPON with the name, then the pushed profile, then GET:ALL |
| Reconciler.AnnounceSends | gui.py:389-391 | the announcement's keys in order, the stored numbers in positions 1 to 6, and no word value but ALL after the weapon |
| Reconciler.WeaponChange | gui.py:385-392 | the weapon's profile is shown; with a port open, the announcement is followed by CROUCH with the value in force; with none, nothing is written; nothing is saved |
| Reconciler.WeaponChangeSends | gui.py:385-392 | on an open port a weapon change writes WEAPON, the pushed keys, GET, CROUCH in that order, with the stored numbers, ending with the crouch value in force |
| Reconciler.PushAgreesWithUI | gui.py:387-390 | the numbers pushed on a weapon change are the numbers the model's sliders hold; the source's scale clips and rounds them (see Left out) |
| Reconciler.Pick | gui.py:233 | choosing a weapon selects it, shows its stored profile on the sliders, clears the attachment boxes and shows its CROUCH (1 while Ctrl is held on an open port); on an open port it writes the whole announcement followed by CROUCH with the value in force, on a closed one nothing; the store, port and Ctrl flag are kept |
| Reconciler.RequestState | gui.py:295 | the GET STATE button changes no state and writes GET:ALL only while a port is open (its bytes: `Session.RequestStateWire`) |
| Reconciler.ToggleConnection | gui.py:366-383 | disconnecting closes the port and writes nothing; a failed or unchosen port changes nothing; a successful connect opens the port, shows the selected weapon's stored profile with the attachment boxes cleared, and writes the whole announcement followed by CROUCH with the value in force; the store and selection are never touched |
| Reconciler.Press | gui.py:471-474 | the first Ctrl press forces the crouch box to 1 and sends CROUCH:1 unsaved; auto-repeat does nothing |
| Reconciler.Release | gui.py:476-481 | releasing Ctrl puts the stored CROUCH, as stored, back in the box and sends it as `int(val)`, unsaved; a release without a press does nothing |
| Reconciler.PressIdempotent | gui.py:473 | a second press while Ctrl is held sends nothing |
| Reconciler.PressRelease | gui.py:471-481 | a press and a release leave the store alone and the crouch box at the stored value, writing CROUCH:1 then the stored value |
| Reconciler.ApplyThenLookup | gui.py:415 | a saved setting reads back from the store as `int(val)` for CROUCH and `float(val)` otherwise |
| DeviceSync.Adopt | gui.py:447-448 | `safe_upd` sets one slider to the reported number when it reads, and leaves it otherwise |
| DeviceSync.Update | gui.py:450-452 | SENS, ADS, FOV, SMTH and GAIN each take the reported value when present and readable; every other slider is untouched |
| DeviceSync.Base | gui.py:442-445 | a listed weapon other than the selected one is selected and its profile loaded; otherwise the state is unchanged |
| DeviceSync.BoxesOf | gui.py:458-463 | each attachment box is ticked exactly when its name occurs, case-sensitively, in the `ATT` text |
| DeviceSync.Finish | gui.py:454-463 | the crouch flag is taken unless Ctrl is held or it is absent; the attachment boxes follow a non-empty `ATT` and are otherwise left |
| DeviceSync.Sync | gui.py:435-463 | the corrected handler: follows a listed weapon, copies the readable reported numbers, never the crouch multiplier, takes the crouch flag unless Ctrl is held, takes attachments from a non-empty `ATT`; it sends and saves nothing |
| DeviceSync.UpdateIdempotent | gui.py:447-452 | copying the same reported numbers twice is copying them once |
| DeviceSync.SyncIdempotent | gui.py:435-463 | receiving the same status twice has the effect of receiving it once |
| DeviceSync.UpdateAsWrittenAgrees | gui.py:447-452 | the as-written slider updates raise exactly when some reported number does not read, and otherwise agree with the corrected ones |
| DeviceSync.SyncAsWrittenAgrees | gui.py:435-463 | the as-written handler completes exactly on lines whose numbers all read, and then does what the corrected one does |
| DeviceSync.Receive | gui.py:430-431 | a line without the marker changes nothing; a status line never changes the store, the port, the Ctrl flag, or selects an unlisted weapon |
| DeviceSync.Tick | gui.py:424-433 | draining the queue never saves, connects or selects an unlisted weapon |
| DeviceSync.TickAppend | gui.py:424-433 | draining two batches in turn is draining them at once |
| DeviceSync.TickAsWritten | gui.py:424-433 | once the handler has raised, `_tick` is not re-armed and every later line only piles up in the queue |
| DeviceSync.TickAsWrittenAgrees | gui.py:424-433 | on lines whose numbers all read, the as-written tick does what the corrected one does and stays armed |
| Session.PollAsWrittenInv | gui.py:424-463 | the tick as written keeps the session invariant, the store and the port flag, so what it adds over the corrected tick is only which lines it goes on to read |
| Session.Start | gui.py:138-155 | after construction the first weapon is selected, the sliders and crouch box show its profile from the loaded store, no port is open, Ctrl is not held, and the attachment boxes are clear |
| Session.StartInv | gui.py:145 | the constructed application selects a listed weapon and every listed weapon has a profile |
| Session.HandleInv | gui.py:366-485 | every handler keeps the selection listed and every listed weapon's profile |
| Session.RunInv | gui.py:366-485 | every state a session reaches keeps that invariant |
| Session.HandleOffline | gui.py:411 | without an open port no handler writes or saves anything, and only a successful connect opens one |
| Session.RunOffline | gui.py:411 | a session that never opens a port writes nothing and never changes the settings |
| Session.StoreOnlyBySettings | gui.py:414-415 | only a slider or the crouch box saves; attachments, hotkeys, weapon changes and syncs never do |
| Session.ScopesExclusive | gui.py:246-251 | after a click on Holo or 8x the two are never both ticked |
| Session.SyncMayShowBothScopes | gui.py:458-461 | a device report of `HOLO,X8` ticks both boxes: the exclusion holds for clicks only |
| Session.RequestStateWire | gui.py:295 | the GET STATE button puts exactly `GET:ALL` and a newline on an open port, and nothing on a closed one |
| Session.WeaponNamesAreWords | gui.py:18-21 | every listed weapon name can be sent as a value without breaking the line format |
| Session.HandleProper | gui.py:366-485 | every command a handler writes has a key with no whitespace or colon and no whitespace in a word value |
| Session.RunProper | gui.py:366-485 | every command a session writes is proper |
| Session.SessionFramed | gui.py:79-100 | whatever a session writes, a line reader gets back as the same commands, each splitting into the key and value written |
| PollingFinding.ParseBadLine | gui.py:38-51 | `ST:W=AK47 S=-` matches, with `-` as the sensitivity |
| PollingFinding.DashUnreadable | gui.py:448 | `float("-")` raises |
| PollingFinding.BadLineRaises | gui.py:447-450 | as written, the handler raises on that line, after switching to AK47 |
| PollingFinding.PollingStops | gui.py:424-433 | as written, the bad line stops polling: the good line behind it stays queued and no later batch changes the UI |
| PollingFinding.CorrectedKeepsPolling | gui.py:424-433 | corrected, the good line behind the bad one is adopted |

## Left out

- The Tk widgets, styles and layout are not modelled. Neither are the log pane (`_write_log`, `_log_*`) or the dashboard label (gui.py:436-439); these two do not feed back into the core.
- The slider widgets do feed back, and that is not modelled. Every write to a slider variable reaches `scale.set`: through the variable's write trace (gui.py:340, 343-345) or, after Return in the entry, directly (gui.py:334). The scale clips the value to its range (gui.py:269-274: SENS, ADS and CROUCHM 0.1-2.0, FOV 60-120, SMTH 0.05-0.8, GAIN 0.1-6.0). Its `command` then writes the variable back as `f"{v:.3f}"` (gui.py:329). The model's `Sliders` hold the value as it was written, before this clipping and rounding. Where a stored or reported number lies outside the slider's range, or has more than three decimals, the source's slider shows a different number from the model's. For example, FOV 150 typed into the entry is sent and saved as 150 but shown as `120.000`, and a later weapon change pushes FOV 150 while the slider shows 120. The members below state slider values in this sense:
  - Reconciler.Tune: the slider is said to hold `x`; the source's holds `x` clipped and rounded. What is sent and saved is `x`, as in the source.
  - Reconciler.LoadProfile: the sliders are said to show the stored numbers; the source's show them clipped and rounded.
  - Reconciler.WeaponChange: the same for the sliders after a weapon change. The commands it states are exact.
  - Reconciler.PushAgreesWithUI: the pushed numbers equal the sliders' numbers only in the model. In the source they are equal only for stored numbers inside the slider's range with at most three decimals.
  - Reconciler.Pick: the slider values it states are unclipped and unrounded.
  - Reconciler.ToggleConnection: the slider values stated on a connect are unclipped and unrounded.
  - Session.Start: the sliders are said to show the loaded profile unclipped and unrounded.
  - DeviceSync.Adopt: the slider is said to take the reported number; the source's takes it clipped and rounded.
  - DeviceSync.Update: the same for each of the five sliders.
  - DeviceSync.Sync: the copied slider values are unclipped and unrounded.
- Port listing and the insides of `SerialManager.connect` are replaced by the `portOk` parameter of `Reconciler.ToggleConnection`. So are the 2-second boot wait and `update()` (gui.py:372-379). `close()` is modelled as clearing the `connected` flag.
- The reader thread, its sleeps and its bare `except` (gui.py:90-93) are not modelled. The reads are given as a sequence of chunks, and an empty chunk stands for a timed-out read. Concurrency between the reader, the hotkey listener and the Tk loop is left out: events are processed one at a time.
- `decode(errors="ignore")` is not modelled. Characters are taken as already decoded, so invalid UTF-8 is not dropped.
- Transport.Send: a write that raises is swallowed by the source (gui.py:100). The model treats every write on an open port as succeeding.
- The JSON file is not read or written. Reading yields the decoded table or nothing, and `save` is a no-op. A file without a `weapons` entry, or a profile missing one of the seven keys, makes the source raise; the model's `Profile` always has all seven keys.
- Commands.Render: float formatting is a parameter. This covers `:.4f`, `str` of a float and binary rounding. The slider's `:.3f` rounding is covered by the slider line above.
- Reconciler.Tune: takes the slider value as a real. An entry text that is not a number, which makes the source raise from `var.get()`, is not modelled.
- StatusParser.ParseStatus: takes, for each field, the first occurrence after the previous field, and a value runs as far as its shape allows. The regex instead backtracks: its greedy `.*` can move to a later occurrence of a tag, and `\S+` can give up the end of the weapon. So `ST:W=AK47,S=0.78` matches in the source with weapon `AK47,` and sensitivity `0.78`, while the model finds no `S=` after the weapon and reports no match. These backtracking matches are not modelled. What is proved is the format the firmware prints: fields one space apart, each once and in order (`StatusRender.RenderParses`). `TBS` is searched only before the `SENS` tag, as the regex requires.
- Session.Handle: a poll event runs the corrected `DeviceSync.Tick`, not `DeviceSync.TickAsWritten`, so `Session.RunInv`, `Session.RunOffline`, `Session.RunProper` and `Session.SessionFramed` are proved for the program with the Findings fix. The as-written tick keeps the same invariant, store and port flag (`Session.PollAsWrittenInv`), and it differs only in stopping to read further lines (`PollingFinding.PollingStops`).
- Python's `\d` and `float` also accept non-ASCII digits; the model accepts ASCII digits only. `\S` and `strip()` do use Python's full whitespace set.
- `pynput` key identity is abstracted to Ctrl-down and Ctrl-up events. Other keys do nothing in the source.
- `TBS` and `ON` are parsed but not used, as in the source. `CROUCHM` is never synced from the device.
- Three behaviours of the code that a reader might not expect, all modelled as written:
  - `Store.get` does not insert a default profile for an unknown weapon (gui.py:131). Only `set` does (gui.py:134).
  - Holo and 8x exclude each other only when the user clicks the boxes. A device report can tick both (gui.py:460-461).
  - With no port open, `_apply` returns before saving (gui.py:411). Slider moves and crouch clicks made while disconnected are not saved.

## Findings

| source | as written | input that shows it | evidently intended | confidence | as-written member | corrected member |
|---|---|---|---|---|---|---|
| gui.py:447-450 with gui.py:424-433 | `safe_upd` calls `float` on any non-empty `[-\d.]+` capture. A capture such as `-` or `1.2.3` raises `ValueError` inside `_sync_from_device`. `_tick` catches only `Empty`, so it is left before `self.after(50, self._tick)` and the queue is never polled again | the status line `ST:W=AK47 S=-` | skip the unreadable number and keep polling | not executed | PollingFinding.PollingStops | PollingFinding.CorrectedKeepsPolling |
