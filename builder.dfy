/**
 * CertificateStatusBuilder: a mutable accumulator that collects the results
 * of the Issuer, Secret and CertificateRequest lookups, each of which may have
 * failed, and snapshots them into a CertificateStatus.
 *
 * withEvents and withIssuerKind set their field unconditionally. The lookup
 * methods withIssuer, withClusterIssuer, withSecret and withCR follow one
 * rule: a lookup error wins and records a failed sub-status, a missing object
 * leaves the builder as it was, and otherwise the sub-status is ok; withSecret
 * adds two failures of its own, for a Secret whose tls.crt is absent or empty
 * and for bytes the parser rejects. Each method changes only its own field
 * (withCR also replaces the top-level events) and returns the builder itself.
 */
module Builder {
  import opened Wrappers
  import opened GoLib
  import opened Status

  /** The Secret data key that holds the certificate. */
  const TlsCrtKey: string := "tls.crt"

  /** secret.Data["tls.crt"]; a missing key reads as no bytes. */
  function CertData(secret: Secret): seq<byte>
  {
    if TlsCrtKey in secret.data then secret.data[TlsCrtKey] else []
  }

  const NotSetPrefix: string := "error: 'tls.crt' of Secret "
  const NotSetSuffix: string := " is not set\n"
  const ParseErrorPrefix: string := "error when parsing 'tls.crt' of Secret "

  /** The error for a Secret without certificate bytes. */
  function NotSetMessage(secretName: string): string
  {
    NotSetPrefix + Quote(secretName) + NotSetSuffix
  }

  /** The error for certificate bytes the parser rejects, wrapping the parser's message. */
  function ParseErrorMessage(secretName: string, parseError: string): string
  {
    ParseErrorPrefix + Quote(secretName) + ": " + parseError + "\n"
  }

  /** The Secret's name can be read back out of the "not set" error. */
  lemma NotSetMessageNamesSecret(secretName: string)
    ensures |NotSetPrefix| + |NotSetSuffix| <= |NotSetMessage(secretName)|
    ensures Unquote(NotSetMessage(secretName)[|NotSetPrefix|..|NotSetMessage(secretName)| - |NotSetSuffix|]) == Some(secretName)
  {
    var m := NotSetMessage(secretName);
    assert m[|NotSetPrefix|..|m| - |NotSetSuffix|] == Quote(secretName);
    QuoteRoundTrip(secretName);
  }

  /**
   * The parse error names the Secret, quoted, and ends with the parser's own
   * message and a newline.
   */
  lemma ParseErrorMessageNamesSecret(secretName: string, parseError: string)
    ensures var m := ParseErrorMessage(secretName, parseError);
      var q := |ParseErrorPrefix| + |Quote(secretName)|;
      q + 2 + |parseError| + 1 == |m| &&
      Unquote(m[|ParseErrorPrefix|..q]) == Some(secretName) &&
      m[q + 2..|m| - 1] == parseError
  {
    var m := ParseErrorMessage(secretName, parseError);
    var q := |ParseErrorPrefix| + |Quote(secretName)|;
    assert m[|ParseErrorPrefix|..q] == Quote(secretName);
    assert m[q + 2..|m| - 1] == parseError;
    QuoteRoundTrip(secretName);
  }

  // ------------------------------------------------ the updates, as values

  /** withIssuer / withClusterIssuer on the Issuer sub-status; kind is "Issuer" or "ClusterIssuer". */
  function IssuerUpdate(prev: Option<IssuerStatus>, issuer: Option<Issuer>, err: Option<string>, kind: string): Option<IssuerStatus>
  {
    if err.Some? then Some(IssuerFailed(err.value))
    else if issuer.None? then prev
    else Some(IssuerOk(issuer.value.name, kind, issuer.value.conditions))
  }

  /** withSecret on the Secret sub-status. */
  function SecretUpdate(prev: Option<SecretStatus>, secret: Option<Secret>, err: Option<string>, decode: X509Decoder): Option<SecretStatus>
  {
    if err.Some? then Some(SecretFailed(err.value))
    else if secret.None? then prev
    else if |CertData(secret.value)| == 0 then Some(SecretFailed(NotSetMessage(secret.value.name)))
    else match decode(CertData(secret.value))
      case Err(e) => Some(SecretFailed(ParseErrorMessage(secret.value.name, e)))
      case Ok(cert) => Some(SecretOk(secret.value.name, cert))
  }

  /** withCR on the CertificateRequest sub-status; the record's own events are never set. */
  function CRUpdate(prev: Option<CRStatus>, req: Option<CertificateRequest>, err: Option<string>): Option<CRStatus>
  {
    if err.Some? then Some(CRFailed(err.value))
    else if req.None? then prev
    else Some(CROk(req.value.name, req.value.namespace, req.value.conditions, None))
  }

  /** withCR on the top-level events: replaced only when a request was found. */
  function CREventsUpdate(prev: Option<EventList>, req: Option<CertificateRequest>, events: Option<EventList>, err: Option<string>): Option<EventList>
  {
    if err.None? && req.Some? then events else prev
  }

  /** One call of a `with` method. */
  datatype Op =
    | SetEvents(events: Option<EventList>)
    | SetIssuerKind(kind: string)
    | IssuerLookup(issuer: Option<Issuer>, err: Option<string>)
    | ClusterIssuerLookup(clusterIssuer: Option<Issuer>, err: Option<string>)
    | SecretLookup(secret: Option<Secret>, err: Option<string>, decode: X509Decoder)
    | RequestLookup(req: Option<CertificateRequest>, requestEvents: Option<EventList>, err: Option<string>)

  /** The snapshot after one `with` call. */
  function Apply(s: CertificateStatus, op: Op): CertificateStatus
  {
    match op
    case SetEvents(events) => s.(events := events)
    case SetIssuerKind(kind) => s.(issuerKind := kind)
    case IssuerLookup(issuer, err) => s.(issuerStatus := IssuerUpdate(s.issuerStatus, issuer, err, "Issuer"))
    case ClusterIssuerLookup(issuer, err) => s.(issuerStatus := IssuerUpdate(s.issuerStatus, issuer, err, "ClusterIssuer"))
    case SecretLookup(secret, err, decode) => s.(secretStatus := SecretUpdate(s.secretStatus, secret, err, decode))
    case RequestLookup(req, events, err) =>
      s.(events := CREventsUpdate(s.events, req, events, err), crStatus := CRUpdate(s.crStatus, req, err))
  }

  /** The snapshot after a chain of `with` calls, first call first. */
  function ApplyAll(s: CertificateStatus, ops: seq<Op>): (r: CertificateStatus)
    ensures r.name == s.name && r.namespace == s.namespace && r.creationTime == s.creationTime
    ensures r.conditions == s.conditions && r.dnsNames == s.dnsNames
    ensures r.notBefore == s.notBefore && r.notAfter == s.notAfter && r.renewalTime == s.renewalTime
  {
    if ops == [] then s else Apply(ApplyAll(s, ops[..|ops| - 1]), ops[|ops| - 1])
  }

  // ------------------------------------------------------------ the class

  class CertificateStatusBuilder {
    var name: string
    var namespace: string
    var creationTime: Time
    var conditions: seq<Condition>
    var dnsNames: seq<string>
    var events: Option<EventList>
    var notBefore: Option<Time>
    var notAfter: Option<Time>
    var renewalTime: Option<Time>
    var issuerKind: string
    var issuerStatus: Option<IssuerStatus>
    var secretStatus: Option<SecretStatus>
    var crStatus: Option<CRStatus>

    /** The builder for a non-nil Certificate: its own fields copied, every sub-status nil. */
    constructor FromCert(crt: Certificate)
      ensures name == crt.name && namespace == crt.namespace && creationTime == crt.creationTimestamp
      ensures conditions == crt.conditions && dnsNames == crt.dnsNames
      ensures notBefore == crt.notBefore && notAfter == crt.notAfter && renewalTime == crt.renewalTime
      ensures events == None && issuerKind == ""
      ensures issuerStatus == None && secretStatus == None && crStatus == None
    {
      name, namespace, creationTime := crt.name, crt.namespace, crt.creationTimestamp;
      conditions, dnsNames := crt.conditions, crt.dnsNames;
      notBefore, notAfter, renewalTime := crt.notBefore, crt.notAfter, crt.renewalTime;
      events, issuerKind := None, "";
      issuerStatus, secretStatus, crStatus := None, None, None;
    }

    /** build: a snapshot holding every field of the builder as it is now. */
    function Build(): (s: CertificateStatus)
      reads this
      ensures s.name == name && s.namespace == namespace && s.creationTime == creationTime
      ensures s.conditions == conditions && s.dnsNames == dnsNames && s.events == events
      ensures s.notBefore == notBefore && s.notAfter == notAfter && s.renewalTime == renewalTime
      ensures s.issuerKind == issuerKind && s.issuerStatus == issuerStatus
      ensures s.secretStatus == secretStatus && s.crStatus == crStatus
    {
      CertificateStatus(name, namespace, creationTime, conditions, dnsNames, events,
        notBefore, notAfter, renewalTime, issuerKind, issuerStatus, secretStatus, crStatus)
    }

    /** withEvents: replaces the events. */
    method WithEvents(events: Option<EventList>) returns (b: CertificateStatusBuilder)
      modifies this`events
      ensures b == this
      ensures this.events == events
      ensures Build() == Apply(old(Build()), SetEvents(events))
    {
      this.events := events;
      return this;
    }

    /** withIssuerKind: replaces the issuer kind. */
    method WithIssuerKind(kind: string) returns (b: CertificateStatusBuilder)
      modifies this`issuerKind
      ensures b == this
      ensures issuerKind == kind
      ensures Build() == Apply(old(Build()), SetIssuerKind(kind))
    {
      issuerKind := kind;
      return this;
    }

    /** withIssuer: records the namespaced Issuer lookup. */
    method WithIssuer(issuer: Option<Issuer>, err: Option<string>) returns (b: CertificateStatusBuilder)
      modifies this`issuerStatus
      ensures b == this
      ensures err.Some? ==> issuerStatus == Some(IssuerFailed(err.value))
      ensures err.None? && issuer.None? ==> issuerStatus == old(issuerStatus)
      ensures err.None? && issuer.Some? ==>
        issuerStatus == Some(IssuerOk(issuer.value.name, "Issuer", issuer.value.conditions))
      ensures Build() == Apply(old(Build()), IssuerLookup(issuer, err))
    {
      if err.Some? {
        issuerStatus := Some(IssuerFailed(err.value));
        return this;
      }
      if issuer.None? {
        return this;
      }
      issuerStatus := Some(IssuerOk(issuer.value.name, "Issuer", issuer.value.conditions));
      return this;
    }

    /** withClusterIssuer: records the cluster-scoped issuer lookup. */
    method WithClusterIssuer(clusterIssuer: Option<Issuer>, err: Option<string>) returns (b: CertificateStatusBuilder)
      modifies this`issuerStatus
      ensures b == this
      ensures err.Some? ==> issuerStatus == Some(IssuerFailed(err.value))
      ensures err.None? && clusterIssuer.None? ==> issuerStatus == old(issuerStatus)
      ensures err.None? && clusterIssuer.Some? ==>
        issuerStatus == Some(IssuerOk(clusterIssuer.value.name, "ClusterIssuer", clusterIssuer.value.conditions))
      ensures Build() == Apply(old(Build()), ClusterIssuerLookup(clusterIssuer, err))
    {
      if err.Some? {
        issuerStatus := Some(IssuerFailed(err.value));
        return this;
      }
      if clusterIssuer.None? {
        return this;
      }
      issuerStatus := Some(IssuerOk(clusterIssuer.value.name, "ClusterIssuer", clusterIssuer.value.conditions));
      return this;
    }

    /** withSecret: records the Secret lookup and parses the certificate it holds. */
    method WithSecret(secret: Option<Secret>, err: Option<string>, decode: X509Decoder) returns (b: CertificateStatusBuilder)
      modifies this`secretStatus
      ensures b == this
      ensures err.Some? ==> secretStatus == Some(SecretFailed(err.value))
      ensures err.None? && secret.None? ==> secretStatus == old(secretStatus)
      ensures err.None? && secret.Some? && |CertData(secret.value)| == 0 ==>
        secretStatus == Some(SecretFailed(NotSetMessage(secret.value.name)))
      ensures err.None? && secret.Some? && |CertData(secret.value)| > 0 && decode(CertData(secret.value)).Err? ==>
        secretStatus == Some(SecretFailed(ParseErrorMessage(secret.value.name, decode(CertData(secret.value)).error)))
      ensures err.None? && secret.Some? && |CertData(secret.value)| > 0 && decode(CertData(secret.value)).Ok? ==>
        secretStatus == Some(SecretOk(secret.value.name, decode(CertData(secret.value)).value))
      ensures Build() == Apply(old(Build()), SecretLookup(secret, err, decode))
    {
      if err.Some? {
        secretStatus := Some(SecretFailed(err.value));
        return this;
      }
      if secret.None? {
        return this;
      }
      var certData := CertData(secret.value);
      if |certData| == 0 {
        secretStatus := Some(SecretFailed(NotSetMessage(secret.value.name)));
        return this;
      }
      var x509Cert := decode(certData);
      if x509Cert.Err? {
        secretStatus := Some(SecretFailed(ParseErrorMessage(secret.value.name, x509Cert.error)));
        return this;
      }
      secretStatus := Some(SecretOk(secret.value.name, x509Cert.value));
      return this;
    }

    /**
     * withCR: records the CertificateRequest lookup; only a found request
     * replaces the top-level events, with the request's events.
     */
    method WithCR(req: Option<CertificateRequest>, events: Option<EventList>, err: Option<string>) returns (b: CertificateStatusBuilder)
      modifies this`crStatus, this`events
      ensures b == this
      ensures err.Some? ==> crStatus == Some(CRFailed(err.value)) && this.events == old(this.events)
      ensures err.None? && req.None? ==> crStatus == old(crStatus) && this.events == old(this.events)
      ensures err.None? && req.Some? ==>
        crStatus == Some(CROk(req.value.name, req.value.namespace, req.value.conditions, None)) &&
        this.events == events
      ensures Build() == Apply(old(Build()), RequestLookup(req, events, err))
    {
      if err.Some? {
        crStatus := Some(CRFailed(err.value));
        return this;
      }
      if req.None? {
        return this;
      }
      this.events := events;
      crStatus := Some(CROk(req.value.name, req.value.namespace, req.value.conditions, None));
      return this;
    }
  }

  /** newCertificateStatusBuilderFromCert: nil for a nil Certificate, otherwise a fresh builder. */
  method NewCertificateStatusBuilderFromCert(crt: Option<Certificate>) returns (b: CertificateStatusBuilder?)
    ensures crt.None? <==> b == null
    ensures b != null ==> fresh(b) && b.Build() == InitialStatus(crt.value)
  {
    if crt.None? {
      return null;
    }
    b := new CertificateStatusBuilder.FromCert(crt.value);
  }

  /** What build returns for a builder fresh from a Certificate. */
  function InitialStatus(crt: Certificate): CertificateStatus
  {
    CertificateStatus(crt.name, crt.namespace, crt.creationTimestamp, crt.conditions, crt.dnsNames, None,
      crt.notBefore, crt.notAfter, crt.renewalTime, "", None, None, None)
  }

  // ---------------------------------------------- chains of `with` calls

  lemma {:induction false} ApplyAllAppend(s: CertificateStatus, a: seq<Op>, b: seq<Op>)
    ensures ApplyAll(s, a + b) == ApplyAll(ApplyAll(s, a), b)
    decreases |b|
  {
    if b == [] {
      assert a + b == a;
    } else {
      assert (a + b)[..|a + b| - 1] == a + b[..|b| - 1];
      assert (a + b)[|a + b| - 1] == b[|b| - 1];
      ApplyAllAppend(s, a, b[..|b| - 1]);
    }
  }

  predicate TouchesIssuer(op: Op)
  {
    op.IssuerLookup? || op.ClusterIssuerLookup?
  }

  /** The calls that may replace the top-level events. */
  predicate TouchesEvents(op: Op)
  {
    op.SetEvents? || op.RequestLookup?
  }

  // Error isolation: a sub-status (and the issuer kind and the events) is
  // changed only by the calls that are about it, whatever else fails in between.

  lemma {:induction false} IssuerStatusIsolated(s: CertificateStatus, ops: seq<Op>)
    requires forall i :: 0 <= i < |ops| ==> !TouchesIssuer(ops[i])
    ensures ApplyAll(s, ops).issuerStatus == s.issuerStatus
  {
    if ops != [] {
      IssuerStatusIsolated(s, ops[..|ops| - 1]);
    }
  }

  lemma {:induction false} SecretStatusIsolated(s: CertificateStatus, ops: seq<Op>)
    requires forall i :: 0 <= i < |ops| ==> !ops[i].SecretLookup?
    ensures ApplyAll(s, ops).secretStatus == s.secretStatus
  {
    if ops != [] {
      SecretStatusIsolated(s, ops[..|ops| - 1]);
    }
  }

  lemma {:induction false} CRStatusIsolated(s: CertificateStatus, ops: seq<Op>)
    requires forall i :: 0 <= i < |ops| ==> !ops[i].RequestLookup?
    ensures ApplyAll(s, ops).crStatus == s.crStatus
  {
    if ops != [] {
      CRStatusIsolated(s, ops[..|ops| - 1]);
    }
  }

  lemma {:induction false} IssuerKindIsolated(s: CertificateStatus, ops: seq<Op>)
    requires forall i :: 0 <= i < |ops| ==> !ops[i].SetIssuerKind?
    ensures ApplyAll(s, ops).issuerKind == s.issuerKind
  {
    if ops != [] {
      IssuerKindIsolated(s, ops[..|ops| - 1]);
    }
  }

  lemma {:induction false} EventsIsolated(s: CertificateStatus, ops: seq<Op>)
    requires forall i :: 0 <= i < |ops| ==> !TouchesEvents(ops[i])
    ensures ApplyAll(s, ops).events == s.events
  {
    if ops != [] {
      EventsIsolated(s, ops[..|ops| - 1]);
    }
  }

  /**
   * A failed Issuer status carries exactly the error some issuer lookup was
   * given (or was there before the chain); an ok one comes from a found
   * issuer, with kind "Issuer" or "ClusterIssuer" according to the call.
   */
  lemma {:induction false} IssuerStatusProvenance(s: CertificateStatus, ops: seq<Op>)
    ensures ApplyAll(s, ops).issuerStatus.Some? && ApplyAll(s, ops).issuerStatus.value.IssuerFailed? ==>
      ApplyAll(s, ops).issuerStatus == s.issuerStatus ||
      exists i :: 0 <= i < |ops| && TouchesIssuer(ops[i]) &&
        ops[i].err == Some(ApplyAll(s, ops).issuerStatus.value.error)
    ensures ApplyAll(s, ops).issuerStatus.Some? && ApplyAll(s, ops).issuerStatus.value.IssuerOk? ==>
      ApplyAll(s, ops).issuerStatus == s.issuerStatus ||
      exists i :: 0 <= i < |ops| && (
        (ops[i].IssuerLookup? && ops[i].err.None? && ops[i].issuer.Some? &&
          ApplyAll(s, ops).issuerStatus.value ==
            IssuerOk(ops[i].issuer.value.name, "Issuer", ops[i].issuer.value.conditions)) ||
        (ops[i].ClusterIssuerLookup? && ops[i].err.None? && ops[i].clusterIssuer.Some? &&
          ApplyAll(s, ops).issuerStatus.value ==
            IssuerOk(ops[i].clusterIssuer.value.name, "ClusterIssuer", ops[i].clusterIssuer.value.conditions)))
  {
    if ops != [] {
      var pre := ops[..|ops| - 1];
      IssuerStatusProvenance(s, pre);
      var last := |ops| - 1;
      var before := ApplyAll(s, pre);
      if ApplyAll(s, ops).issuerStatus == before.issuerStatus {
        forall i | 0 <= i < |pre| ensures ops[i] == pre[i] { }
      } else {
        assert TouchesIssuer(ops[last]);
      }
    }
  }

  /**
   * A failed Secret status carries the error a Secret lookup was given, or
   * names the Secret whose certificate bytes were missing or did not parse;
   * an ok one holds exactly what the parser returned for a found Secret.
   */
  lemma {:induction false} SecretStatusProvenance(s: CertificateStatus, ops: seq<Op>)
    ensures ApplyAll(s, ops).secretStatus.Some? && ApplyAll(s, ops).secretStatus.value.SecretFailed? ==>
      ApplyAll(s, ops).secretStatus == s.secretStatus ||
      exists i :: 0 <= i < |ops| && ops[i].SecretLookup? && (
        ops[i].err == Some(ApplyAll(s, ops).secretStatus.value.error) ||
        (ops[i].err.None? && ops[i].secret.Some? && |CertData(ops[i].secret.value)| == 0 &&
          ApplyAll(s, ops).secretStatus.value.error == NotSetMessage(ops[i].secret.value.name)) ||
        (ops[i].err.None? && ops[i].secret.Some? && |CertData(ops[i].secret.value)| > 0 &&
          ops[i].decode(CertData(ops[i].secret.value)).Err? &&
          ApplyAll(s, ops).secretStatus.value.error ==
            ParseErrorMessage(ops[i].secret.value.name, ops[i].decode(CertData(ops[i].secret.value)).error)))
    ensures ApplyAll(s, ops).secretStatus.Some? && ApplyAll(s, ops).secretStatus.value.SecretOk? ==>
      ApplyAll(s, ops).secretStatus == s.secretStatus ||
      exists i :: 0 <= i < |ops| && ops[i].SecretLookup? && ops[i].err.None? && ops[i].secret.Some? &&
        |CertData(ops[i].secret.value)| > 0 &&
        ops[i].decode(CertData(ops[i].secret.value)).Ok? &&
        ApplyAll(s, ops).secretStatus.value ==
          SecretOk(ops[i].secret.value.name, ops[i].decode(CertData(ops[i].secret.value)).value)
  {
    if ops != [] {
      var pre := ops[..|ops| - 1];
      SecretStatusProvenance(s, pre);
      if ApplyAll(s, ops).secretStatus == ApplyAll(s, pre).secretStatus {
        forall i | 0 <= i < |pre| ensures ops[i] == pre[i] { }
      } else {
        assert ops[|ops| - 1].SecretLookup?;
      }
    }
  }

  /**
   * A failed CertificateRequest status carries the error a request lookup was
   * given; an ok one comes from a found request and never has events of its own.
   */
  lemma {:induction false} CRStatusProvenance(s: CertificateStatus, ops: seq<Op>)
    ensures ApplyAll(s, ops).crStatus.Some? && ApplyAll(s, ops).crStatus.value.CRFailed? ==>
      ApplyAll(s, ops).crStatus == s.crStatus ||
      exists i :: 0 <= i < |ops| && ops[i].RequestLookup? &&
        ops[i].err == Some(ApplyAll(s, ops).crStatus.value.error)
    ensures ApplyAll(s, ops).crStatus.Some? && ApplyAll(s, ops).crStatus.value.CROk? ==>
      ApplyAll(s, ops).crStatus == s.crStatus ||
      exists i :: 0 <= i < |ops| && ops[i].RequestLookup? && ops[i].err.None? && ops[i].req.Some? &&
        ApplyAll(s, ops).crStatus.value ==
          CROk(ops[i].req.value.name, ops[i].req.value.namespace, ops[i].req.value.conditions, None)
  {
    if ops != [] {
      var pre := ops[..|ops| - 1];
      CRStatusProvenance(s, pre);
      if ApplyAll(s, ops).crStatus == ApplyAll(s, pre).crStatus {
        forall i | 0 <= i < |pre| ensures ops[i] == pre[i] { }
      } else {
        assert ops[|ops| - 1].RequestLookup?;
      }
    }
  }

  /**
   * The events of the report were there before the chain, were set by
   * withEvents, or are the events passed with a request that was found.
   */
  lemma {:induction false} EventsProvenance(s: CertificateStatus, ops: seq<Op>)
    ensures ApplyAll(s, ops).events == s.events ||
      exists i :: 0 <= i < |ops| && (
        (ops[i].SetEvents? && ops[i].events == ApplyAll(s, ops).events) ||
        (ops[i].RequestLookup? && ops[i].err.None? && ops[i].req.Some? &&
          ops[i].requestEvents == ApplyAll(s, ops).events))
  {
    if ops != [] {
      var pre := ops[..|ops| - 1];
      EventsProvenance(s, pre);
      if ApplyAll(s, ops).events == ApplyAll(s, pre).events {
        forall i | 0 <= i < |pre| ensures ops[i] == pre[i] { }
      } else {
        assert TouchesEvents(ops[|ops| - 1]);
      }
    }
  }
}
