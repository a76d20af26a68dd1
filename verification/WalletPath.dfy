// The derivation path of a user's wallet: the bytes of the derivation id, read as one number through its
// hexadecimal form, are cut into four hardened account indices of 31 bits each.

module WalletPath {
  newtype Byte = x: int | 0 <= x < 256

  const LIMB: nat := 0x8000_0000

  /** Hexadecimal digits, two for each byte. */
  function Hex(id: seq<Byte>): (digits: seq<nat>)
    ensures forall d <- digits :: d < 16
  {
    if id == [] then [] else Hex(id[..|id| - 1]) + [id[|id| - 1] as nat / 16, id[|id| - 1] as nat % 16]
  }

  function FromHex(digits: seq<nat>): nat {
    if digits == [] then 0 else FromHex(digits[..|digits| - 1]) * 16 + digits[|digits| - 1]
  }

  /** The big-endian value of the id. */
  function Value(id: seq<Byte>): nat {
    if id == [] then 0 else Value(id[..|id| - 1]) * 256 + id[|id| - 1] as nat
  }

  datatype Path = Path(account0: nat, account1: nat, account2: nat, account3: nat)

  /** mask(31) keeps the low 31 bits, shr(n) drops the low n bits. */
  function PathOf(n: nat): Path {
    Path(n % LIMB, n / LIMB % LIMB, n / (LIMB * LIMB) % LIMB, n / (LIMB * LIMB * LIMB) % LIMB)
  }

  function Derive(id: seq<Byte>): Path {
    PathOf(FromHex(Hex(id)))
  }

  function Recombined(p: Path): nat {
    p.account0 + p.account1 * LIMB + p.account2 * (LIMB * LIMB) + p.account3 * (LIMB * LIMB * LIMB)
  }

  lemma {:induction false} HexValue(id: seq<Byte>)
    ensures FromHex(Hex(id)) == Value(id)
  {
    if id != [] {
      HexValue(id[..|id| - 1]);
      var h, a, b := Hex(id[..|id| - 1]), id[|id| - 1] as nat / 16, id[|id| - 1] as nat % 16;
      assert Hex(id)[..|Hex(id)| - 1] == h + [a];
      assert (h + [a])[..|h|] == h;
    }
  }

  /** The indices are valid hardened indices, and they give the number back if and only if it has at most
      124 bits. */
  lemma PathExactly(n: nat)
    ensures var p := PathOf(n);
      && p.account0 < 0x8000_0000 && p.account1 < 0x8000_0000 && p.account2 < 0x8000_0000 && p.account3 < 0x8000_0000
      && (Recombined(p) == n <==> n < 0x1000_0000_0000_0000_0000_0000_0000_0000)
  {
    assert LIMB * LIMB * LIMB * LIMB == 0x1000_0000_0000_0000_0000_0000_0000_0000;
    var q1, q2, q3 := n / LIMB, n / (LIMB * LIMB), n / (LIMB * LIMB * LIMB);
    assert q2 == q1 / LIMB && q3 == q2 / LIMB;
  }

  lemma {:induction false} ValueBound(id: seq<Byte>)
    ensures Value(id) < Power256(|id|)
  {
    if id != [] {
      ValueBound(id[..|id| - 1]);
    }
  }

  function Power256(n: nat): nat {
    if n == 0 then 1 else 256 * Power256(n - 1)
  }

  lemma FifteenBytesFit()
    ensures Power256(15) <= LIMB * LIMB * LIMB * LIMB
  {
    assert Power256(5) == 0x100_0000_0000;
    assert Power256(10) == 0x100_0000_0000_0000_0000_00;
    assert Power256(15) == 0x100_0000_0000_0000_0000_0000_0000_0000;
  }

  lemma {:induction false} ValueInjective(a: seq<Byte>, b: seq<Byte>)
    requires |a| == |b| && Value(a) == Value(b)
    ensures a == b
  {
    if a != [] {
      var n := |a| - 1;
      ValueInjective(a[..n], b[..n]);
      assert a == a[..n] + [a[n]] && b == b[..n] + [b[n]];
    }
  }

  /** A derivation id has 15 bytes. Its path recombines to the id's value, so distinct ids have distinct paths. */
  lemma PathsAreDistinct(a: seq<Byte>, b: seq<Byte>)
    requires |a| == |b| == 15
    ensures Recombined(Derive(a)) == Value(a)
    ensures Derive(a) == Derive(b) <==> a == b
  {
    FifteenBytesFit();
    HexValue(a);
    HexValue(b);
    ValueBound(a);
    ValueBound(b);
    PathExactly(Value(a));
    PathExactly(Value(b));
    if Derive(a) == Derive(b) {
      ValueInjective(a, b);
    }
  }
}
