/** The stored configuration: its bands, the boot-time migration that corrects a record, and the
    commit that refuses one. */
module ConfigMigrate {
  import opened Bytes
  import ControlRegister
  import VoltageMath

  type long = x: int | -0x8000_0000 <= x < 0x8000_0000

  const NO_OVERRIDE: byte := 0xFF
  const R1_DEFAULT: long := 270000
  const R1_MIN: long := 202500
  const R1_MAX: long := 337500
  const R2_DEFAULT: long := 44000
  const R2_MIN: long := 33000
  const R2_MAX: long := 55000

  /** "VER07" and its terminator. */
  const CONFIG_VERSION: seq<byte> := [0x56, 0x45, 0x52, 0x30, 0x37, 0x00]

  datatype Settings = Settings(version: seq<byte>, r1: long, r2: long, hardwareRevision: byte, bandgapMv: uint16)

  predicate IsDigit(c: byte) {
    0x30 <= c <= 0x39
  }

  /** "VER" and two digits: a record of this firmware. */
  predicate IsConfigVersion(v: seq<byte>) {
    |v| == 6 && v[0] == 0x56 && v[1] == 0x45 && v[2] == 0x52 && IsDigit(v[3]) && IsDigit(v[4]) && v[5] == 0
  }

  predicate RevisionKnown(revision: byte) {
    revision == NO_OVERRIDE || revision <= ControlRegister.REVISION_2_3
  }

  /** Every value is one the firmware may use. */
  predicate Usable(s: Settings) {
    && R1_MIN <= s.r1 <= R1_MAX
    && R2_MIN <= s.r2 <= R2_MAX
    && VoltageMath.BANDGAP_MIN_MV <= s.bandgapMv <= VoltageMath.BANDGAP_MAX_MV
    && RevisionKnown(s.hardwareRevision)
  }

  /** Each value, or its default where it is unusable. */
  function Corrected(s: Settings): Settings {
    Settings(
      s.version,
      if R1_MIN <= s.r1 <= R1_MAX then s.r1 else R1_DEFAULT,
      if R2_MIN <= s.r2 <= R2_MAX then s.r2 else R2_DEFAULT,
      if RevisionKnown(s.hardwareRevision) then s.hardwareRevision else NO_OVERRIDE,
      if VoltageMath.BANDGAP_MIN_MV <= s.bandgapMv <= VoltageMath.BANDGAP_MAX_MV then s.bandgapMv
      else VoltageMath.BANDGAP_NOMINAL_MV)
  }

  /** The values of a configuration nobody has set. */
  const DEFAULTS := Settings(CONFIG_VERSION, R1_DEFAULT, R2_DEFAULT, NO_OVERRIDE, VoltageMath.BANDGAP_NOMINAL_MV)

  /** Usable values make a plausible calibration, on the 10-bit and on the 12-bit boards. */
  lemma UsableIsPlausible(s: Settings, fullScale: nat)
    requires Usable(s) && (fullScale == 1024 || fullScale == 4096)
    ensures VoltageMath.Plausible(s.r1, s.r2, s.bandgapMv, fullScale)
  {
    InBandIsPlausible(s.r1, s.r2, s.bandgapMv, fullScale);
  }

  lemma InBandIsPlausible(r1: uint32, r2: uint32, bandgapMv: uint32, fullScale: nat)
    requires R1_MIN <= r1 <= R1_MAX && R2_MIN <= r2 <= R2_MAX
    requires VoltageMath.BANDGAP_MIN_MV <= bandgapMv <= VoltageMath.BANDGAP_MAX_MV
    requires fullScale == 1024 || fullScale == 4096
    ensures VoltageMath.Plausible(r1, r2, bandgapMv, fullScale)
  {
    var sum := r1 + r2;
    assert VoltageMath.Add32(r1, r2) == sum <= 392500;
    ProductBound(bandgapMv, sum);
    VoltageMath.SmallProduct(bandgapMv, sum);
    var p := bandgapMv * sum;
    ScaleBound(p, r2);
    assert 14272 <= VoltageMath.ScaleMax(fullScale);
    assert VoltageMath.Div32(p, r2) == p / r2;
  }

  lemma ProductBound(a: nat, b: nat)
    requires a <= VoltageMath.BANDGAP_MAX_MV && b <= 392500
    ensures a * b <= 471_000_000
  {
    VoltageMath.MulAtMost(a, b, VoltageMath.BANDGAP_MAX_MV, 392500);
  }

  lemma ScaleBound(p: nat, r: nat)
    requires p <= 471_000_000 && r >= 33000
    ensures p / r <= 14272
  {
    VoltageMath.MulAtMost(33000, 14273, r, 14273);
    VoltageMath.QuotientBelow(p, r, 14273);
  }

  class Config {
    var version: seq<byte>
    var r1: long
    var r2: long
    var hardwareRevision: byte
    var bandgapMv: uint16

    constructor (s: Settings)
      ensures Value() == s
    {
      version, r1, r2, hardwareRevision, bandgapMv := s.version, s.r1, s.r2, s.hardwareRevision, s.bandgapMv;
    }

    function Value(): Settings
      reads this
    {
      Settings(version, r1, r2, hardwareRevision, bandgapMv)
    }

    /** Find the unusable fields and, on request, reset each of them. */
    method CheckFields(correct: bool) returns (unusable: bool)
      modifies this
      ensures unusable <==> !Usable(old(Value()))
      ensures Value() == if correct then Corrected(old(Value())) else old(Value())
    {
      unusable := false;
      if r1 < R1_MIN || r1 > R1_MAX {
        if correct {
          r1 := R1_DEFAULT;
        }
        unusable := true;
      }
      if r2 < R2_MIN || r2 > R2_MAX {
        if correct {
          r2 := R2_DEFAULT;
        }
        unusable := true;
      }
      if bandgapMv < VoltageMath.BANDGAP_MIN_MV || bandgapMv > VoltageMath.BANDGAP_MAX_MV {
        if correct {
          bandgapMv := VoltageMath.BANDGAP_NOMINAL_MV;
        }
        unusable := true;
      }
      if !RevisionKnown(hardwareRevision) {
        if correct {
          hardwareRevision := NO_OVERRIDE;
        }
        unusable := true;
      }
    }

    /** Make a loaded record usable. A foreign record is replaced by the defaults as a whole; one
        of this firmware keeps every value it may keep. The result says whether anything
        changed. */
    method Migrate() returns (changed: bool)
      modifies this
      ensures Usable(Value()) && version == CONFIG_VERSION
      ensures Value() == if IsConfigVersion(old(version)) then Corrected(old(Value())).(version := CONFIG_VERSION) else DEFAULTS
      ensures changed <==> Value() != old(Value())
    {
      if !IsConfigVersion(version) {
        version := [0xFF, 0xFF, 0xFF, 0xFF, 0xFF, 0xFF];
        r1, r2, hardwareRevision, bandgapMv := -1, -1, 0xFF, 0xFFFF;
      }
      changed := CheckFields(true);
      if version != CONFIG_VERSION {
        version := CONFIG_VERSION;
        changed := true;
      }
    }

    /** Take over a candidate only if every value of it is usable. */
    method Commit(candidate: Config) returns (ok: bool)
      requires candidate != this
      modifies this, candidate
      ensures candidate.Value() == old(candidate.Value())
      ensures ok <==> Usable(old(candidate.Value()))
      ensures Value() == if ok then old(candidate.Value()) else old(Value())
      ensures old(Usable(Value())) ==> Usable(Value())
    {
      var unusable := candidate.CheckFields(false);
      if unusable {
        return false;
      }
      version, r1, r2 := candidate.version, candidate.r1, candidate.r2;
      hardwareRevision, bandgapMv := candidate.hardwareRevision, candidate.bandgapMv;
      return true;
    }
  }

  /** A live configuration that the firmware holds after boot and after any number of accepted
      or refused commits always gives a plausible calibration. */
  method LiveConfiguration(stored: Settings, candidates: seq<Settings>, fullScale: nat) returns (live: Config)
    requires fullScale == 1024 || fullScale == 4096
    ensures Usable(live.Value())
    ensures VoltageMath.Plausible(live.r1, live.r2, live.bandgapMv, fullScale)
  {
    live := new Config(stored);
    var changed := live.Migrate();
    for i := 0 to |candidates|
      invariant Usable(live.Value()) && fresh(live)
    {
      var candidate := new Config(candidates[i]);
      var ok := live.Commit(candidate);
    }
    UsableIsPlausible(live.Value(), fullScale);
  }
}
