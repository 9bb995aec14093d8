/** What the error detection of MDC-1200 is worth to its decoder: which errors on the
    air leave a block accepted, and what a rejected block does. */
module MdcIntegrity {
  import opened BitRows
  import opened MdcCrc
  import opened MdcCode
  import opened MdcDetect
  import opened MdcDecode

  /** The 48 bits of a captured block that its checksum protects: four octets and the
      checksum itself. */
  function Protected(bits: Row): (c: Row)
    requires |bits| == 112
    ensures |c| == 48
  {
    Deinterleaved(bits)[..48]
  }

  lemma FourOctets(r: Row)
    requires |r| == 112
    ensures Bits([OctetAt(r, 0), OctetAt(r, 1), OctetAt(r, 2), OctetAt(r, 3)]) == r[..48][..32]
  {
    var s := [OctetAt(r, 0), OctetAt(r, 1), OctetAt(r, 2), OctetAt(r, 3)];
    var f := r[..32];
    forall i | 0 <= i < |s| ensures s[i] == OctetAt(f, i) {
      assert forall j | 0 <= j < 8 :: OctetAt(r, i)[j] == OctetAt(f, i)[j];
    }
    SameOctets(s, f);
    assert r[..48][..32] == f;
  }

  /** The test of _procbits is the test the detection results are about. */
  lemma IntactIff(bits: Row)
    requires |bits| == 112
    ensures Intact(bits) <==> Accepts(Protected(bits))
  {
    var r := Deinterleaved(bits);
    FourOctets(r);
    assert OctetAt(r, 4) + OctetAt(r, 5) == r[..48][32..];
    hide Checksum, Deinterleaved, Bits;
  }

  /** Errors on the air are errors of the protected bits, moved. */
  lemma ProtectedXor(bits: Row, errors: Row)
    requires |bits| == |errors| == 112
    ensures Protected(Xor(bits, errors)) == Xor(Protected(bits), Protected(errors))
  {}

  /** Of an intact block, errors on the air leave an intact block exactly if those among
      the protected bits make a multiple of the generator polynomial. */
  lemma AirErrorUnnoticedIff(bits: Row, errors: Row)
    requires |bits| == |errors| == 112 && Intact(bits)
    ensures Intact(Xor(bits, errors)) <==> MultipleOfG(Protected(errors))
  {
    hide *;
    IntactIff(bits);
    IntactIff(Xor(bits, errors));
    ProtectedXor(bits, errors);
    ErrorUnnoticedIff(Protected(bits), Protected(errors));
  }

  /** Bursts of at most 16 of the protected bits, and odd numbers of them, are noticed. */
  lemma NoticedErrors(bits: Row, errors: Row)
    requires |bits| == |errors| == 112 && Intact(bits)
    requires Burst(Protected(errors)) || Ones(Protected(errors)) % 2 == 1
    ensures !Intact(Xor(bits, errors))
  {
    hide *;
    IntactIff(bits);
    IntactIff(Xor(bits, errors));
    ProtectedXor(bits, errors);
    if Burst(Protected(errors)) {
      BurstDetected(Protected(bits), Protected(errors));
    } else {
      OddErrorDetected(Protected(bits), Protected(errors));
    }
  }

  /** A branch that has captured an intact block with such errors goes back to hunting,
      and nothing else changes: nothing is stored, nothing reported, and what was on
      offer stays. */
  lemma BadBlockStoresNothing(d: Dec, x: nat, bits: Row, errors: Row)
    requires x < |d.branches| && |bits| == |errors| == 112 && Intact(bits)
    requires d.branches[x].bits == Xor(bits, errors)
    requires Burst(Protected(errors)) || Ones(Protected(errors)) % 2 == 1
    ensures Process(d, x) == d.(branches := d.branches[x := d.branches[x].(shstate := 0)])
  {
    NoticedErrors(bits, errors);
    hide Intact, Burst, Ones;
  }
}
