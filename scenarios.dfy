/** Concrete cases of the decoders, the builder and the renderer. */
module Scenarios {
  import opened Wrappers
  import opened GoLib
  import opened Usage
  import opened Status
  import opened Builder
  import opened Render

  /** No bit set: no label. */
  lemma KeyUsageZero()
    ensures Join(KeyUsageLabels(0), ", ") == ""
  {
    KeyUsageNonPositive(0);
  }

  /** Bit 0 alone: Digital Signature. */
  lemma KeyUsageDigitalSignature()
    ensures Join(KeyUsageLabels(1), ", ") == "Digital Signature"
  {
    KeyUsageIsBitDecomposition(1);
    assert SetBitLabels(1, 1) == [] by {
      assert !HasBit(1, 1) && !HasBit(1, 2) && !HasBit(1, 3) && !HasBit(1, 4);
      assert !HasBit(1, 5) && !HasBit(1, 6) && !HasBit(1, 7) && !HasBit(1, 8);
    }
  }

  /** Bits 0 and 1: both labels, lowest bit first. */
  lemma KeyUsageTwoBits()
    ensures Join(KeyUsageLabels(3), ", ") == "Digital Signature" + ", " + "Content Commitment"
  {
    KeyUsageIsBitDecomposition(3);
    assert SetBitLabels(3, 2) == [] by {
      assert !HasBit(3, 2) && !HasBit(3, 3) && !HasBit(3, 4);
      assert !HasBit(3, 5) && !HasBit(3, 6) && !HasBit(3, 7) && !HasBit(3, 8);
    }
    var labels := SetBitLabels(3, 0);
    assert labels == ["Digital Signature", "Content Commitment"];
    assert labels[1..] == ["Content Commitment"];
  }

  /** Bit 8 alone: Decipher Only. */
  lemma KeyUsageDecipherOnly()
    ensures Join(KeyUsageLabels(256), ", ") == "Decipher Only"
  {
    KeyUsageIsBitDecomposition(256);
    assert SetBitLabels(256, 9) == [];
    assert HasBit(256, 8);
    assert !HasBit(256, 0) && !HasBit(256, 1) && !HasBit(256, 2) && !HasBit(256, 3);
    assert !HasBit(256, 4) && !HasBit(256, 5) && !HasBit(256, 6) && !HasBit(256, 7);
    assert SetBitLabels(256, 8) == ["Decipher Only"];
  }

  /** Codes 0 and 1 decode in order. */
  lemma ExtKeyUsageKnown()
    ensures ExtKeyUsageText([0, 1]) == Ok("Any" + ", " + "Server Authentication")
  {
    ExtKeyUsageSucceeds([0, 1]);
    var labels := ExtKeyUsageLabels([0, 1]);
    assert labels == ["Any", "Server Authentication"];
    assert labels[1..] == ["Server Authentication"];
  }

  /** Code 14 is past the table; the error names it, and a later unknown code is not reached. */
  lemma ExtKeyUsageUnknown()
    ensures ExtKeyUsageText([14]) == Err(UnknownExtKeyUsagePrefix + "14")
    ensures ExtKeyUsageText([0, 14, 20]) == Err(UnknownExtKeyUsagePrefix + "14")
  {
    ExtKeyUsageFailsOnFirstUnknown([14], 0);
    ExtKeyUsageFailsOnFirstUnknown([0, 14, 20], 1);
    assert DigitChar(4) == '4' && DigitChar(1) == '1';
    assert FormatInt(14) == "14" by {
      assert DecimalDigits(14) == DecimalDigits(1) + [DigitChar(4)];
    }
    assert [0, 14, 20][1] == 14;
  }

  /** A negative code is unknown and printed with its sign. */
  lemma ExtKeyUsageNegative()
    ensures ExtKeyUsageText([-1]) == Err(UnknownExtKeyUsagePrefix + "-1")
  {
    ExtKeyUsageFailsOnFirstUnknown([-1], 0);
    assert DigitChar(1) == '1';
    assert FormatInt(-1) == "-1";
  }

  /** A single condition renders as its own line; none renders as the placeholder. */
  lemma SingleConditionBlock(c: Condition)
    ensures ConditionBlock([c]) == ConditionLine(c)
    ensures ConditionBlock([]) == NoConditionsSet
  {
    NoConditionsExactlyWhenEmpty([c]);
    ConditionLinesInOrder([c], 0);
    assert [c][..0] == [] && [c][1..] == [];
  }

  /**
   * A chain of `with` calls on a fresh builder: an Issuer found, then a nil
   * Issuer lookup that changes nothing, a failed Secret lookup, and a found
   * request; each sub-status ends up as its own call left it, and the failed
   * Secret renders as its error alone.
   */
  method BuilderChain(crt: Certificate, issuer: Issuer, req: CertificateRequest, events: EventList, decode: X509Decoder)
    returns (status: CertificateStatus, secretText: string)
    ensures status.name == crt.name && status.namespace == crt.namespace && status.dnsNames == crt.dnsNames
    ensures status.issuerKind == ""
    ensures status.issuerStatus == Some(IssuerOk(issuer.name, "Issuer", issuer.conditions))
    ensures status.secretStatus == Some(SecretFailed("secrets \"tls\" not found"))
    ensures status.crStatus == Some(CROk(req.name, req.namespace, req.conditions, None))
    ensures status.events == Some(events)
    ensures secretText == "secrets \"tls\" not found"
  {
    var b := NewCertificateStatusBuilderFromCert(Some(crt));
    var same := b.WithIssuer(Some(issuer), None);
    same := b.WithIssuer(None, None);
    same := b.WithSecret(None, Some("secrets \"tls\" not found"), decode);
    same := b.WithCR(Some(req), Some(events), None);
    status := b.Build();
    secretText := SecretString(status.secretStatus.value);
  }
}
