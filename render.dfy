/**
 * The String methods of IssuerStatus, SecretStatus and CRStatus: a failed
 * status renders as its error message alone, an ok one fills a fixed template.
 * The Issuer and CertificateRequest templates share the conditions block: one
 * line per condition in order, or a single "No Conditions set" line.
 */
module Render {
  import opened Wrappers
  import opened GoLib
  import opened Usage
  import opened Status

  // ------------------------------------------------------ conditions block

  /** "  T: S, Reason: R, Message: M\n". */
  function ConditionLine(c: Condition): string
  {
    "  " + c.conditionType + ": " + c.status + ", Reason: " + c.reason + ", Message: " + c.message + "\n"
  }

  /** Strings one after another. */
  function Concat(ls: seq<string>): string
  {
    if ls == [] then "" else Concat(ls[..|ls| - 1]) + ls[|ls| - 1]
  }

  lemma {:induction false} ConcatAppend(a: seq<string>, b: seq<string>)
    ensures Concat(a + b) == Concat(a) + Concat(b)
    decreases |b|
  {
    if b == [] {
      assert a + b == a;
    } else {
      var init := b[..|b| - 1];
      var last := b[|b| - 1];
      assert a + b == (a + init) + [last];
      assert (a + b)[..|a + b| - 1] == a + init;
      ConcatAppend(a, init);
      assert Concat(a + b) == Concat(a + init) + last;
      assert Concat(b) == Concat(init) + last;
    }
  }

  lemma {:induction false} ConcatLength(ls: seq<string>, min: nat)
    requires forall k :: 0 <= k < |ls| ==> |ls[k]| >= min
    ensures |Concat(ls)| >= min * |ls|
  {
    if ls != [] {
      ConcatLength(ls[..|ls| - 1], min);
    }
  }

  /** One line per condition, in order. */
  function LinesOf(cs: seq<Condition>): (ls: seq<string>)
    ensures |ls| == |cs|
  {
    seq(|cs|, k requires 0 <= k < |cs| => ConditionLine(cs[k]))
  }

  /** The condition lines one after another, in order. */
  function ConditionLines(cs: seq<Condition>): string
  {
    Concat(LinesOf(cs))
  }

  const NoConditionsSet: string := "  No Conditions set\n"

  /** The conditions block: the lines, or the placeholder when they are empty. */
  function ConditionBlock(cs: seq<Condition>): string
  {
    var lines := ConditionLines(cs);
    if lines == "" then NoConditionsSet else lines
  }

  /** The loop of the String methods that accumulates conditionMsg. */
  method ConditionsMessage(conditions: seq<Condition>) returns (conditionMsg: string)
    ensures conditionMsg == ConditionBlock(conditions)
  {
    conditionMsg := "";
    for i := 0 to |conditions|
      invariant conditionMsg == ConditionLines(conditions[..i])
    {
      var con := conditions[i];
      assert LinesOf(conditions[..i + 1]) == LinesOf(conditions[..i]) + [ConditionLine(con)];
      conditionMsg := conditionMsg + ConditionLine(con);
    }
    assert conditions[..|conditions|] == conditions;
    if conditionMsg == "" {
      conditionMsg := NoConditionsSet;
    }
  }

  /**
   * The placeholder appears exactly when there are no conditions; otherwise
   * the block is the condition lines (no line can be mistaken for it, every
   * line being longer).
   */
  lemma NoConditionsExactlyWhenEmpty(cs: seq<Condition>)
    ensures ConditionBlock(cs) == NoConditionsSet <==> cs == []
    ensures cs != [] ==> ConditionBlock(cs) == ConditionLines(cs)
  {
    ConcatLength(LinesOf(cs), 26);
  }

  /** Condition i has its own line, after the lines of the conditions before it and before the rest. */
  lemma ConditionLinesInOrder(cs: seq<Condition>, i: nat)
    requires i < |cs|
    ensures ConditionLines(cs) == ConditionLines(cs[..i]) + ConditionLine(cs[i]) + ConditionLines(cs[i + 1..])
  {
    var ls := LinesOf(cs);
    assert ls == LinesOf(cs[..i]) + [ConditionLine(cs[i])] + LinesOf(cs[i + 1..]);
    ConcatAppend(LinesOf(cs[..i]) + [ConditionLine(cs[i])], LinesOf(cs[i + 1..]));
    ConcatAppend(LinesOf(cs[..i]), [ConditionLine(cs[i])]);
    assert Concat([ConditionLine(cs[i])]) == ConditionLine(cs[i]) by {
      assert [ConditionLine(cs[i])][..0] == [];
    }
  }

  // ---------------------------------------------------------------- Issuer

  /** The Issuer template up to the conditions block. */
  function IssuerHeader(name: string, kind: string): string
  {
    "Issuer:\n  Name: " + name + "\n  Kind: " + kind + "\n  Conditions:\n  "
  }

  /** IssuerStatus.String. */
  function IssuerText(s: IssuerStatus): (r: string)
    ensures s.IssuerFailed? ==> r == s.error
  {
    match s
    case IssuerFailed(e) => e
    case IssuerOk(name, kind, conditions) =>
      IssuerHeader(name, kind) + ConditionBlock(conditions)
  }

  /**
   * An ok Issuer lists condition i on its own line, between the lines of the
   * conditions before and after it.
   */
  lemma IssuerTextShowsCondition(s: IssuerStatus, i: nat)
    requires s.IssuerOk? && i < |s.conditions|
    ensures IssuerText(s) == IssuerHeader(s.name, s.kind)
      + ConditionLines(s.conditions[..i]) + ConditionLine(s.conditions[i]) + ConditionLines(s.conditions[i + 1..])
  {
    NoConditionsExactlyWhenEmpty(s.conditions);
    ConditionLinesInOrder(s.conditions, i);
  }

  method IssuerString(s: IssuerStatus) returns (r: string)
    ensures r == IssuerText(s)
  {
    if s.IssuerFailed? {
      return s.error;
    }
    var conditionMsg := ConditionsMessage(s.conditions);
    r := IssuerHeader(s.name, s.kind) + conditionMsg;
  }

  // ---------------------------------------------------------------- Secret

  /** The extended key usages as printed: the labels, or the decoder's error in their place. */
  function ExtKeyUsageShown(codes: seq<int>): string
  {
    match ExtKeyUsageText(codes)
    case Ok(t) => t
    case Err(e) => e
  }

  /** The serial number as printed: lower-case hex of its big-endian magnitude. */
  function SerialNumberHex(serial: int): string
  {
    HexEncode(BigEndianBytes(Abs(serial)))
  }

  /** With every code known, the extended key usages line shows the labels. */
  lemma ExtKeyUsageShownKnown(codes: seq<int>)
    requires forall j :: 0 <= j < |codes| ==> KnownExtKeyUsage(codes[j])
    ensures ExtKeyUsageShown(codes) == Join(ExtKeyUsageLabels(codes), ", ")
  {
    ExtKeyUsageSucceeds(codes);
  }

  /** Otherwise it shows, in place of the labels, the error naming the first unknown code. */
  lemma ExtKeyUsageShownUnknown(codes: seq<int>, i: nat)
    requires i < |codes| && !KnownExtKeyUsage(codes[i])
    requires forall j :: 0 <= j < i ==> KnownExtKeyUsage(codes[j])
    ensures ExtKeyUsageShown(codes) == UnknownExtKeyUsageMessage(codes[i])
  {
    ExtKeyUsageFailsOnFirstUnknown(codes, i);
  }

  /** The printed serial number decodes back to the magnitude of the serial. */
  lemma SerialNumberRecoverable(serial: int)
    ensures HexDecode(SerialNumberHex(serial)).Some?
    ensures FromBigEndian(HexDecode(SerialNumberHex(serial)).value) == Abs(serial)
  {
    HexRoundTrip(BigEndianBytes(Abs(serial)));
    BigEndianRoundTrip(Abs(serial));
  }

  /**
   * The Secret template filled in; the key usage and extended key usage
   * fields arrive already rendered.
   */
  function SecretFormat(name: string, cert: X509Certificate, keyUsage: string, extKeyUsages: string): string
  {
    "Secret:\n  Name: " + name
    + "\n  Issuer Country: " + Join(cert.issuerCountry, ", ")
    + "\n  Issuer Organisation: " + Join(cert.issuerOrganization, ", ")
    + "\n  Issuer Common Name: " + cert.issuerCommonName
    + "\n  Key Usage: " + keyUsage
    + "\n  Extended Key Usages: " + extKeyUsages
    + "\n  Public Key Algorithm: " + cert.publicKeyAlgorithm
    + "\n  Signature Algorithm: " + cert.signatureAlgorithm
    + "\n  Subject Key ID: " + HexEncode(cert.subjectKeyId)
    + "\n  Authority Key ID: " + HexEncode(cert.authorityKeyId)
    + "\n  Serial Number: " + SerialNumberHex(cert.serialNumber) + "\n"
  }

  /** SecretStatus.String. */
  function SecretText(s: SecretStatus): (r: string)
    ensures s.SecretFailed? ==> r == s.error
  {
    match s
    case SecretFailed(e) => e
    case SecretOk(name, cert) =>
      SecretFormat(name, cert, Join(KeyUsageLabels(cert.keyUsage), ", "), ExtKeyUsageShown(cert.extKeyUsage))
  }

  method SecretString(s: SecretStatus) returns (r: string)
    ensures r == SecretText(s)
  {
    if s.SecretFailed? {
      return s.error;
    }
    var cert := s.cert;
    var extKeyUsageString, err := ExtKeyUsageToString(cert.extKeyUsage);
    if err.Some? {
      extKeyUsageString := err.value;
    }
    var keyUsageString := KeyUsageToString(cert.keyUsage);
    r := SecretFormat(s.name, cert, keyUsageString, extKeyUsageString);
  }

  /** The serial number 255 is printed as "ff". */
  lemma SerialNumber255()
    ensures SerialNumberHex(255) == "ff"
  {
    assert BigEndianBytes(255) == [255 as byte] by {
      assert BigEndianBytes(0) == [];
    }
    assert HexEncode([255 as byte]) == [HexDigit(15), HexDigit(15)];
  }

  // ---------------------------------------------------- CertificateRequest

  /** The CertificateRequest fields template up to the conditions block. */
  function CRFormat(name: string, namespace: string): string
  {
    "\n  Name: " + name + "\n  Namespace: " + namespace + "\n  Conditions:\n  "
  }

  /** The "CertificateRequest:" prefix joined to the formatted fields. */
  function CRHeader(name: string, namespace: string): string
  {
    "CertificateRequest:" + CRFormat(name, namespace)
  }

  /**
   * CRStatus.String; describeEvents stands for the event describer, whose
   * output for the record's events is appended verbatim.
   */
  function CRText(s: CRStatus, describeEvents: Option<EventList> -> string): (r: string)
    ensures s.CRFailed? ==> r == s.error
  {
    match s
    case CRFailed(e) => e
    case CROk(name, namespace, conditions, events) =>
      CRHeader(name, namespace) + ConditionBlock(conditions) + describeEvents(events)
  }

  /**
   * An ok CertificateRequest lists condition i on its own line, between the
   * lines of the conditions before and after it, and ends with the described events.
   */
  lemma CRTextShowsCondition(s: CRStatus, describeEvents: Option<EventList> -> string, i: nat)
    requires s.CROk? && i < |s.conditions|
    ensures CRText(s, describeEvents) == CRHeader(s.name, s.namespace)
      + ConditionLines(s.conditions[..i]) + ConditionLine(s.conditions[i])
      + ConditionLines(s.conditions[i + 1..]) + describeEvents(s.events)
  {
    NoConditionsExactlyWhenEmpty(s.conditions);
    ConditionLinesInOrder(s.conditions, i);
  }

  method CRString(s: CRStatus, describeEvents: Option<EventList> -> string) returns (r: string)
    ensures r == CRText(s, describeEvents)
  {
    if s.CRFailed? {
      return s.error;
    }
    var conditionMsg := ConditionsMessage(s.conditions);
    var infos := CRFormat(s.name, s.namespace) + conditionMsg;
    infos := "CertificateRequest:" + infos;
    infos := infos + describeEvents(s.events);
    return infos;
  }
}
