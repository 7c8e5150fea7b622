/**
 * The records of the certificate status command: the Kubernetes objects it
 * reads, reduced to the fields it uses, and the status records it builds.
 * A status record is either failed (only its error message is meaningful) or
 * ok (its fields are), never both.
 */
module Status {
  import opened Wrappers
  import opened GoLib

  /** metav1.Time, kept as its RFC 3339 text. */
  datatype Time = Time(rfc3339: string)

  /** A Kubernetes event (v1.Event), reduced to the parts an event description shows. */
  datatype Event = Event(eventType: string, reason: string, source: string, message: string)

  /** v1.EventList. */
  type EventList = seq<Event>

  /** A Certificate, Issuer or CertificateRequest condition. */
  datatype Condition = Condition(conditionType: string, status: string, reason: string, message: string)

  /** The Certificate resource: metadata, spec.dnsNames and its status. */
  datatype Certificate = Certificate(
    name: string,
    namespace: string,
    creationTimestamp: Time,
    conditions: seq<Condition>,
    dnsNames: seq<string>,
    notBefore: Option<Time>,
    notAfter: Option<Time>,
    renewalTime: Option<Time>)

  /** An Issuer or a ClusterIssuer: its name and status conditions. */
  datatype Issuer = Issuer(name: string, conditions: seq<Condition>)

  /** A Secret: its name and its data map. */
  datatype Secret = Secret(name: string, data: map<string, seq<byte>>)

  /** A CertificateRequest: its name, namespace and status conditions. */
  datatype CertificateRequest = CertificateRequest(name: string, namespace: string, conditions: seq<Condition>)

  /** The fields of a parsed X.509 certificate that the Secret status copies. */
  datatype X509Certificate = X509Certificate(
    issuerCountry: seq<string>,
    issuerOrganization: seq<string>,
    issuerCommonName: string,
    keyUsage: int,
    extKeyUsage: seq<int>,
    publicKeyAlgorithm: string,
    signatureAlgorithm: string,
    subjectKeyId: seq<byte>,
    authorityKeyId: seq<byte>,
    serialNumber: int)

  /** The certificate parser (pki.DecodeX509CertificateBytes): bytes to a certificate or an error message. */
  type X509Decoder = seq<byte> -> Result<X509Certificate, string>

  /** IssuerStatus. */
  datatype IssuerStatus =
    | IssuerFailed(error: string)
    | IssuerOk(name: string, kind: string, conditions: seq<Condition>)

  /** SecretStatus: the Secret's name and the certificate fields it holds. */
  datatype SecretStatus =
    | SecretFailed(error: string)
    | SecretOk(name: string, cert: X509Certificate)

  /** CRStatus. */
  datatype CRStatus =
    | CRFailed(error: string)
    | CROk(name: string, namespace: string, conditions: seq<Condition>, events: Option<EventList>)

  /** CertificateStatus: the finished report; None stands for a nil pointer. */
  datatype CertificateStatus = CertificateStatus(
    name: string,
    namespace: string,
    creationTime: Time,
    conditions: seq<Condition>,
    dnsNames: seq<string>,
    events: Option<EventList>,
    notBefore: Option<Time>,
    notAfter: Option<Time>,
    renewalTime: Option<Time>,
    issuerKind: string,
    issuerStatus: Option<IssuerStatus>,
    secretStatus: Option<SecretStatus>,
    crStatus: Option<CRStatus>)
}
