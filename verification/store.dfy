/**
 * The per-weapon settings file (`Store`, gui.py:109-135) and the constants
 * it is seeded with (gui.py:18-27). The JSON file itself is not modelled:
 * reading it yields either the decoded `weapons` table or nothing (a missing
 * or unreadable file), and writing it back is a no-op here.
 */
module ProfileStore {
  import opened Options

  /**
   * A number as Python keeps it after `json.load`: an `int` or a `float`
   * (floats are taken as exact reals).
   */
  datatype Num = I(i: int) | R(x: real)

  /** Python's `int(x)` on a float: truncation toward zero. */
  function Trunc(x: real): (n: int)
    ensures x >= 0.0 ==> n as real <= x < n as real + 1.0
    ensures x < 0.0 ==> n as real - 1.0 < x <= n as real
  {
    if x >= 0.0 then x.Floor else -((-x).Floor)
  }

  /** `int(v)`. */
  function AsInt(v: Num): (n: int)
    ensures v.I? ==> n == v.i
    ensures v.R? ==> n == Trunc(v.x)
  {
    match v
    case I(i) => i
    case R(x) => Trunc(x)
  }

  /** `float(v)`. */
  function AsReal(v: Num): (x: real)
    ensures v.I? ==> x == v.i as real
    ensures v.R? ==> x == v.x
  {
    match v
    case I(i) => i as real
    case R(x) => x
  }

  /** The keys of a profile. */
  datatype Field = Sens | Ads | Fov | Smth | Gain | Crouch | CrouchM

  /** The key as it appears in the settings file and on the wire. */
  function Name(f: Field): (s: string)
    ensures |s| >= 3
  {
    match f
    case Sens => "SENS"
    case Ads => "ADS"
    case Fov => "FOV"
    case Smth => "SMTH"
    case Gain => "GAIN"
    case Crouch => "CROUCH"
    case CrouchM => "CROUCHM"
  }

  /** One weapon's settings. */
  datatype Profile = Profile(sens: Num, ads: Num, fov: Num, smth: Num, gain: Num, crouch: Num, crouchM: Num)
  {
    function Get(f: Field): Num {
      match f
      case Sens => sens
      case Ads => ads
      case Fov => fov
      case Smth => smth
      case Gain => gain
      case Crouch => crouch
      case CrouchM => crouchM
    }

    /** `p[key] = value` on a copy. */
    function With(f: Field, v: Num): (p: Profile)
      ensures p.Get(f) == v
      ensures forall g :: g != f ==> p.Get(g) == Get(g)
    {
      match f
      case Sens => this.(sens := v)
      case Ads => this.(ads := v)
      case Fov => this.(fov := v)
      case Smth => this.(smth := v)
      case Gain => this.(gain := v)
      case Crouch => this.(crouch := v)
      case CrouchM => this.(crouchM := v)
    }
  }

  /** `DEFAULT_PROFILE`. */
  const DEFAULT: Profile := Profile(R(0.78), R(1.0), R(90.0), R(0.3), R(2.2), I(0), R(0.5))

  /** The weapons the selector offers, in order. */
  const WEAPONS: seq<string> :=
    ["AK47", "LR300", "MP5", "THOMPSON", "SAR", "M39", "CUSTOMSMG", "HMLMG", "M249", "PYTHON"]

  /** `data["weapons"]`: weapon name to profile. */
  type Store = map<string, Profile>

  /** `Store.get(w)`: a copy of the stored profile, or of the defaults; the table is not touched. */
  function Lookup(s: Store, w: string): (p: Profile)
    ensures w in s ==> p == s[w]
    ensures w !in s ==> p == DEFAULT
  {
    if w in s then s[w] else DEFAULT
  }

  /** `Store.set(w, key, value)`: `setdefault` the profile, then overwrite one key. */
  function Set(s: Store, w: string, f: Field, v: Num): (r: Store)
    ensures r.Keys == s.Keys + {w}
    ensures Lookup(r, w).Get(f) == v
    ensures forall g :: g != f ==> Lookup(r, w).Get(g) == Lookup(s, w).Get(g)
    ensures forall x :: x != w ==> Lookup(r, x) == Lookup(s, x)
  {
    s[w := Lookup(s, w).With(f, v)]
  }

  /** Setting a key to the value it already has changes nothing but the presence of the weapon. */
  lemma SetSame(s: Store, w: string, f: Field)
    requires w in s
    ensures Set(s, w, f, Lookup(s, w).Get(f)) == s
  {
    var r := Set(s, w, f, Lookup(s, w).Get(f));
    assert r[w] == s[w] by {
      var p, q := r[w], s[w];
      assert forall g :: p.Get(g) == q.Get(g);
      assert p.sens == q.sens by { assert p.Get(Sens) == q.Get(Sens); }
      assert p.ads == q.ads by { assert p.Get(Ads) == q.Get(Ads); }
      assert p.fov == q.fov by { assert p.Get(Fov) == q.Get(Fov); }
      assert p.smth == q.smth by { assert p.Get(Smth) == q.Get(Smth); }
      assert p.gain == q.gain by { assert p.Get(Gain) == q.Get(Gain); }
      assert p.crouch == q.crouch by { assert p.Get(Crouch) == q.Get(Crouch); }
      assert p.crouchM == q.crouchM by { assert p.Get(CrouchM) == q.Get(CrouchM); }
    }
  }

  /** The last write to a key wins; writes to other keys or weapons commute with it. */
  lemma SetSetSameKey(s: Store, w: string, f: Field, v1: Num, v2: Num)
    ensures Set(Set(s, w, f, v1), w, f, v2) == Set(s, w, f, v2)
  {
    var a := Set(Set(s, w, f, v1), w, f, v2);
    var b := Set(s, w, f, v2);
    assert a.Keys == b.Keys;
    forall x | x in a ensures a[x] == b[x] {
      if x == w {
        var p, q := a[w], b[w];
        assert forall g :: p.Get(g) == q.Get(g) by {
          forall g ensures p.Get(g) == q.Get(g) {
            if g != f {
              assert Lookup(a, w).Get(g) == Lookup(Set(s, w, f, v1), w).Get(g);
            }
          }
        }
        assert p.sens == q.sens by { assert p.Get(Sens) == q.Get(Sens); }
        assert p.ads == q.ads by { assert p.Get(Ads) == q.Get(Ads); }
        assert p.fov == q.fov by { assert p.Get(Fov) == q.Get(Fov); }
        assert p.smth == q.smth by { assert p.Get(Smth) == q.Get(Smth); }
        assert p.gain == q.gain by { assert p.Get(Gain) == q.Get(Gain); }
        assert p.crouch == q.crouch by { assert p.Get(Crouch) == q.Get(Crouch); }
        assert p.crouchM == q.crouchM by { assert p.Get(CrouchM) == q.Get(CrouchM); }
      } else {
        assert Lookup(a, x) == Lookup(s, x) == Lookup(b, x);
      }
    }
  }

  /** Every weapon of `ws` has a profile in `s`. */
  predicate Covers(s: Store, ws: seq<string>) {
    forall w :: w in ws ==> w in s
  }

  /** The seeding loop of `Store.load`: give each weapon of `ws` the defaults unless it has a profile. */
  function Seed(s: Store, ws: seq<string>): (r: Store)
    ensures Covers(r, ws)
    ensures forall w :: w in r <==> w in s || w in ws
    ensures forall w :: w in s ==> r[w] == s[w]
    ensures forall w :: w in r && w !in s ==> r[w] == DEFAULT
    decreases |ws|
  {
    if ws == [] then s
    else
      var s' := if ws[0] in s then s else s[ws[0] := DEFAULT];
      assert forall w :: w in ws <==> w == ws[0] || w in ws[1..];
      Seed(s', ws[1..])
  }

  /**
   * What `Store.load` leaves in memory: the decoded table of the file, or an
   * empty one when the file is missing or unreadable, seeded with defaults.
   */
  function Loaded(file: Option<Store>): (s: Store)
    ensures Covers(s, WEAPONS)
    ensures file.Some? ==> forall w :: w in file.value ==> w in s && s[w] == file.value[w]
    ensures forall w :: w in s && (file.None? || w !in file.value) ==> s[w] == DEFAULT && w in WEAPONS
  {
    Seed(file.GetOr(map[]), WEAPONS)
  }

  /** The seeding loop, run over `ws` in order. */
  method SeedLoop(s0: Store, ws: seq<string>) returns (s: Store)
    ensures s == Seed(s0, ws)
  {
    s := s0;
    var i := 0;
    while i < |ws|
      invariant 0 <= i <= |ws|
      invariant Seed(s, ws[i..]) == Seed(s0, ws)
    {
      var w := ws[i];
      assert ws[i..][1..] == ws[i + 1..];
      if w !in s {
        s := s[w := DEFAULT];
      }
      i := i + 1;
    }
  }

  /** `Store.load`: read the file (or start empty), then seed the weapon list. */
  method Load(file: Option<Store>) returns (s: Store)
    ensures s == Loaded(file)
    ensures Covers(s, WEAPONS)
  {
    var table := if file.Some? then file.value else map[];
    s := SeedLoop(table, WEAPONS);
  }

  /** Seeding a table that already covers the weapons changes nothing. */
  lemma {:induction false} SeedCovered(s: Store, ws: seq<string>)
    requires Covers(s, ws)
    ensures Seed(s, ws) == s
  {
    if ws != [] {
      assert forall w :: w in ws[1..] ==> w in ws;
      SeedCovered(s, ws[1..]);
    }
  }

  /** What `save` writes, the next `load` reads back unchanged. */
  lemma LoadSaved(file: Option<Store>)
    ensures Loaded(Some(Loaded(file))) == Loaded(file)
  {
    SeedCovered(Loaded(file), WEAPONS);
  }
}
