/** Checksums computed one byte at a time, for any register width. */
module RunningChecksum {
  import opened Bytes

  /** The register after `s`, starting from `r`. */
  function Register<R>(step: (R, byte) -> R, r: R, s: seq<byte>): R
    decreases |s|
  {
    if s == [] then r else Register(step, step(r, s[0]), s[1..])
  }

  /** A step that loses nothing: neither the register nor the byte it takes in. */
  ghost predicate Lossless<R(!new)>(step: (R, byte) -> R) {
    && (forall c, d, b :: step(c, b) == step(d, b) ==> c == d)
    && (forall c, a, b :: step(c, a) == step(c, b) ==> a == b)
  }

  lemma {:induction false} RegisterAppend<R>(step: (R, byte) -> R, r: R, s: seq<byte>, b: byte)
    ensures Register(step, r, s + [b]) == step(Register(step, r, s), b)
    decreases |s|
  {
    if s == [] {
      assert (s + [b])[1..] == [];
    } else {
      assert (s + [b])[1..] == s[1..] + [b];
      RegisterAppend(step, step(r, s[0]), s[1..], b);
    }
  }

  /** Two registers that differ still differ after the same bytes. */
  lemma {:induction false} RegisterInjective<R(!new)>(step: (R, byte) -> R, c: R, d: R, s: seq<byte>)
    requires Lossless(step) && c != d
    ensures Register(step, c, s) != Register(step, d, s)
    decreases |s|
  {
    if s != [] {
      RegisterInjective(step, step(c, s[0]), step(d, s[0]), s[1..]);
    }
  }

  /** Changing exactly one byte of a message of any length changes the register. */
  lemma {:induction false} OneByteChangesRegister<R(!new)>(
    step: (R, byte) -> R, r: R, s: seq<byte>, i: nat, b: byte)
    requires Lossless(step) && i < |s| && b != s[i]
    ensures Register(step, r, s[i := b]) != Register(step, r, s)
    decreases |s|
  {
    var t := s[i := b];
    if i == 0 {
      assert t[1..] == s[1..];
      RegisterInjective(step, step(r, b), step(r, s[0]), s[1..]);
    } else {
      assert t[1..] == s[1..][i - 1 := b];
      OneByteChangesRegister(step, step(r, s[0]), s[1..], i - 1, b);
    }
  }
}
