# cert-manager `ctl status certificate`: status records, builder and text rendering

This project models the core of the `status certificate` subcommand of
cert-manager's command-line tool. That core gathers what it finds about a
Certificate resource into one status record and renders the record as text.
It covers four parts:

- **Key usage.** `keyUsageToString` walks the table 256, 128, …, 1. It
  subtracts each value that still fits from a running remainder and collects
  that value's label. It stops once the remainder is zero, turns the list
  round by swapping elements in place, and joins it with `", "`.
- **Extended key usage.** `extKeyUsageToString` looks each code up in a
  14-entry table. On the first code outside the table it returns `""` and an
  error naming the code.
- **The builder.** `CertificateStatusBuilder` starts from a Certificate and
  then receives the results of the lookups, one `with…` call each.
  `withEvents` and `withIssuerKind` set their field unconditionally. The
  lookup calls `withIssuer`, `withClusterIssuer`, `withSecret` and `withCR`
  follow one rule: a lookup error wins, a missing object changes nothing, and
  otherwise the sub-status is ok. `withSecret` has two further failures: a
  found Secret whose `tls.crt` is absent or empty, and certificate bytes the
  parser rejects. `build` takes a snapshot of every field.
- **Rendering.** The `String` methods of the Issuer, Secret and
  CertificateRequest sub-statuses print a failed sub-status as its error
  message alone. An ok sub-status fills a fixed template. The conditions
  block has one line per condition, or the line `  No Conditions set` when
  there are none.

Modules:

- `Wrappers`: Option and Result.
- `GoLib`: the Go library behaviour the core relies on. This is
  `strings.Join`, `hex.EncodeToString`, `%d`, `%q` and `big.Int.Bytes`.
  `hex.EncodeToString`, `%d`, `%q` and `big.Int.Bytes` each have a decoder
  that inverts them and a round-trip lemma. `strings.Join` has no decoder; it
  has a length lemma and a lemma for joining two lists.
- `Usage`: the two decoders and their tables.
- `Status`: the resource and status records.
- `Builder`: the builder as a class with the source's fields.
- `Render`: the `String` methods.
- `Scenarios`: concrete cases.

The builder's methods assign one field in place and return the receiver. Each
method's contract gives the new value of that field, and `modifies` names only
that field; `withCR` also names `Events`. Each contract also ties the new
snapshot to a value-level step, `Apply`. `ApplyAll` runs a sequence of calls
as values, and the isolation and provenance lemmas about any such sequence
are stated over it.

Where a reader might expect other behaviour, the model follows the code:

- X.509 (RFC 5280, section 4.2.1.3) defines only key-usage bits 0 to 8, so a
  reader may expect higher bits to be ignored. The greedy `>=` loop does not
  ignore them: every value from 511 up, 512 included, prints all nine labels
  (`Usage.KeyUsageSaturates`).
- `withCR` stores the request's events in the builder's top-level `Events`. It
  never fills the `Events` field of the CertificateRequest sub-status, so
  `CRStatus.String` always describes an absent event list
  (`Builder.CRStatusProvenance`).
- The Issuer and CertificateRequest templates end in `Conditions:\n  %s`. The
  first condition line is therefore indented by four spaces and the later ones
  by two. The model keeps this.

## Model

| member | source | states |
|---|---|---|
| GoLib.JoinLength | cmd/ctl/pkg/status/certificate/types.go:333 | strings.Join of n > 0 elements has their total length plus n-1 separators; joining no elements gives "" |
| GoLib.JoinAppend | cmd/ctl/pkg/status/certificate/types.go:344 | joining two non-empty lists is joining each and putting one separator between |
| GoLib.HexDigit | cmd/ctl/pkg/status/certificate/types.go:293 | a nibble prints as a lower-case hex digit |
| GoLib.HexValue | cmd/ctl/pkg/status/certificate/types.go:293 | a character is read as a nibble in 0..15, or -1; a nibble read back prints as the same character |
| GoLib.HexEncode | cmd/ctl/pkg/status/certificate/types.go:293-294 | hex.EncodeToString gives two characters per byte |
| GoLib.HexRoundTrip | cmd/ctl/pkg/status/certificate/types.go:293-294 | decoding the hex text gives back the bytes exactly |
| GoLib.BigEndianBytes | cmd/ctl/pkg/status/certificate/types.go:294 | big.Int.Bytes of the magnitude is empty exactly for zero and has no leading zero byte |
| GoLib.BigEndianRoundTrip | cmd/ctl/pkg/status/certificate/types.go:294 | the big-endian bytes read back as the same number |
| GoLib.DigitChar | cmd/ctl/pkg/status/certificate/types.go:340 | a digit value prints as a character '0'..'9' |
| GoLib.DecimalDigits | cmd/ctl/pkg/status/certificate/types.go:340 | %d of a natural number is a non-empty string of decimal digits |
| GoLib.DecimalRoundTrip | cmd/ctl/pkg/status/certificate/types.go:340 | the digits read back as the same number |
| GoLib.FormatIntRoundTrip | cmd/ctl/pkg/status/certificate/types.go:340 | %d of any integer, sign included, reads back as that integer |
| GoLib.UnescapeEscapeChar | cmd/ctl/pkg/status/certificate/types.go:202 | unescaping one escaped character gives that character back, followed by the unescaped rest |
| GoLib.EscapeRoundTrip | cmd/ctl/pkg/status/certificate/types.go:202 | unescaping the escaped body of a %q string gives the string back |
| GoLib.QuoteRoundTrip | cmd/ctl/pkg/status/certificate/types.go:202-208 | unquoting %q of a Secret name gives the name back |
| GoLib.EscapePlain | cmd/ctl/pkg/status/certificate/types.go:202 | a string containing none of the nine characters the model escapes (quote, backslash, \a \b \f \n \r \t \v) escapes to itself |
| GoLib.QuotePlain | cmd/ctl/pkg/status/certificate/types.go:202-208 | such a string is quoted by putting double quotes round it |
| Usage.Reversed | cmd/ctl/pkg/status/certificate/types.go:328-332 | the reversed list has the same length, and its k-th element is the k-th from the end |
| Usage.ReversedAppend | cmd/ctl/pkg/status/certificate/types.go:329-332 | reversing a concatenation reverses the parts and swaps them |
| Usage.ReversedTwice | cmd/ctl/pkg/status/certificate/types.go:329-332 | reversing twice gives the list back |
| Usage.ReversedMultiset | cmd/ctl/pkg/status/certificate/types.go:329-332 | reversal keeps the same multiset of labels |
| Usage.Pow2 | cmd/ctl/pkg/status/certificate/types.go:309 | every table value 2^n is positive |
| Usage.PossibleValue | cmd/ctl/pkg/status/certificate/types.go:309 | entry k of keyUsagePossibleValues is 2^(8-k) |
| Usage.BitLabel | cmd/ctl/pkg/status/certificate/types.go:298-308 | the label map sends 2^i to the i-th of the nine labels |
| Usage.AllLabelsDistinct | cmd/ctl/pkg/status/certificate/types.go:298-308 | no two of the nine labels are equal |
| Usage.TopBit | cmd/ctl/pkg/status/certificate/types.go:320 | below 2^(j+1), bit j is set exactly when the value is at least 2^j, so the `>=` test reads the top bit |
| Usage.SubtractKeepsLowBit | cmd/ctl/pkg/status/certificate/types.go:321 | subtracting 2^j keeps every bit below j |
| Usage.Remainder | cmd/ctl/pkg/status/certificate/types.go:319-327 | the running remainder never exceeds the input and never goes negative for a non-negative input |
| Usage.RemainderShrinksExactlyOnMatch | cmd/ctl/pkg/status/certificate/types.go:320-323 | at each table entry the remainder never grows; it strictly shrinks exactly when a label is collected, and otherwise nothing is collected |
| Usage.ExhaustedStays | cmd/ctl/pkg/status/certificate/types.go:324-326 | once the remainder is zero, no later entry changes it or the labels, so the early break loses nothing |
| Usage.RemainderIsLowBits | cmd/ctl/pkg/status/certificate/types.go:319-323 | below 512, after k entries the remainder is under 2^(9-k) and keeps the input's bits below 9-k |
| Usage.CollectedIsBinary | cmd/ctl/pkg/status/certificate/types.go:319-327 | below 512, the labels collected after k entries are those of the set bits 8 down to 9-k, highest first |
| Usage.KeyUsageIsBitDecomposition | cmd/ctl/pkg/status/certificate/types.go:316-334 | below 512, the printed labels are the labels of the set bits, lowest bit first |
| Usage.LabelsDiffer | cmd/ctl/pkg/status/certificate/types.go:298-308 | labels at two different positions differ |
| Usage.SetBitLabelsStep | cmd/ctl/pkg/status/certificate/types.go:298-308 | the set-bit labels from bit lo start with bit lo's label exactly when that bit is set |
| Usage.SetBitLabelsAbove | cmd/ctl/pkg/status/certificate/types.go:298-308 | the set-bit labels from bit lo contain no label of a lower bit |
| Usage.SetBitLabelsMembers | cmd/ctl/pkg/status/certificate/types.go:298-308 | among bits lo to 8, label i is listed exactly when bit i is set |
| Usage.SetBitLabelsDistinct | cmd/ctl/pkg/status/certificate/types.go:298-308 | no set-bit label is listed twice |
| Usage.KeyUsageLabelsAreSetBits | cmd/ctl/pkg/status/certificate/types.go:316-334 | below 512, label i is printed exactly when bit i is set, and each label at most once |
| Usage.CollectedNonPositive | cmd/ctl/pkg/status/certificate/types.go:319-327 | for a usage of 0 or less nothing fits; the remainder stays the input and nothing is collected |
| Usage.KeyUsageNonPositive | cmd/ctl/pkg/status/certificate/types.go:316-334 | 0 or any negative usage prints as the empty string |
| Usage.CollectedSaturated | cmd/ctl/pkg/status/certificate/types.go:319-327 | from 511 up every entry fits; the remainder stays at least 2^(9-k)-1 and every table label is collected |
| Usage.KeyUsageSaturates | cmd/ctl/pkg/status/certificate/types.go:316-334 | every usage from 511 up, 512 included, prints all nine labels |
| Usage.AllBitsSet | cmd/ctl/pkg/status/certificate/types.go:298-308 | the set bits of 511 are all nine, in order |
| Usage.ReverseLabels | cmd/ctl/pkg/status/certificate/types.go:329-332 | the swap loop leaves the collected list exactly reversed |
| Usage.KeyUsageToString | cmd/ctl/pkg/status/certificate/types.go:316-334 | the greedy loop with its early break, then the reversal and the join, prints the joined reversed labels that the entries collect in table order |
| Usage.FirstUnknown | cmd/ctl/pkg/status/certificate/types.go:338-341 | no unknown code is found exactly when every code is in [0,14); a found position holds an unknown code and every earlier code is known |
| Usage.ExtKeyUsageLabelsAt | cmd/ctl/pkg/status/certificate/types.go:342 | with all codes known there is one label per code, and label j is the table entry of code j |
| Usage.UnknownMessageNamesCode | cmd/ctl/pkg/status/certificate/types.go:340 | the error message is the fixed prefix followed by the code, which reads back from the message |
| Usage.ExtKeyUsageToString | cmd/ctl/pkg/status/certificate/types.go:336-345 | on success, the joined labels and no error; on the first unknown code, "" and that code's error |
| Usage.ExtKeyUsageFailsOnFirstUnknown | cmd/ctl/pkg/status/certificate/types.go:338-341 | when code i is the first unknown one, the result is the error naming code i and no partial text |
| Usage.ExtKeyUsageSucceeds | cmd/ctl/pkg/status/certificate/types.go:342-344 | when every code is known, the result is ok: the table labels in input order joined by ", " |
| Builder.NotSetMessageNamesSecret | cmd/ctl/pkg/status/certificate/types.go:202 | the Secret's name reads back from the quoted part of the "'tls.crt' … is not set" error |
| Builder.ParseErrorMessageNamesSecret | cmd/ctl/pkg/status/certificate/types.go:208 | the parse error names the Secret, quoted so that it reads back, and then carries the parser's message verbatim |
| Builder.ApplyAll | cmd/ctl/pkg/status/certificate/types.go:157-233 | no sequence of `with…` calls changes the fields copied from the Certificate |
| Builder.CertificateStatusBuilder.FromCert | cmd/ctl/pkg/status/certificate/types.go:151-154 | the new builder holds the Certificate's fields; the events, issuer kind and sub-statuses are unset |
| Builder.CertificateStatusBuilder.Build | cmd/ctl/pkg/status/certificate/types.go:235-242 | every field of the snapshot equals the builder's field |
| Builder.CertificateStatusBuilder.WithEvents | cmd/ctl/pkg/status/certificate/types.go:157-160 | sets Events, changes nothing else and returns the same builder |
| Builder.CertificateStatusBuilder.WithIssuerKind | cmd/ctl/pkg/status/certificate/types.go:162-165 | sets IssuerKind, changes nothing else and returns the same builder |
| Builder.CertificateStatusBuilder.WithIssuer | cmd/ctl/pkg/status/certificate/types.go:167-177 | an error gives a failed IssuerStatus with exactly that error, even when an Issuer was also given; no Issuer and no error changes nothing; otherwise an ok status of kind "Issuer" with the Issuer's name and conditions; no other field changes |
| Builder.CertificateStatusBuilder.WithClusterIssuer | cmd/ctl/pkg/status/certificate/types.go:179-189 | the same rule with kind "ClusterIssuer" |
| Builder.CertificateStatusBuilder.WithSecret | cmd/ctl/pkg/status/certificate/types.go:191-220 | an error wins; no Secret changes nothing; absent or empty tls.crt fails with the not-set message; a decoder error fails with the parse message; only a decoded certificate gives an ok status; no other field changes |
| Builder.CertificateStatusBuilder.WithCR | cmd/ctl/pkg/status/certificate/types.go:222-233 | an error gives a failed CRStatus and leaves Events alone; no request changes nothing; a found request sets Events and an ok CRStatus whose own events stay unset |
| Builder.NewCertificateStatusBuilderFromCert | cmd/ctl/pkg/status/certificate/types.go:147-155 | no Certificate gives a nil builder, and only then; otherwise a fresh builder whose snapshot is the Certificate's fields with nothing else set |
| Builder.ApplyAllAppend | cmd/ctl/pkg/status/certificate/types.go:157-233 | running two sequences of calls one after the other is running their concatenation |
| Builder.IssuerStatusIsolated | cmd/ctl/pkg/status/certificate/types.go:167-189 | calls other than withIssuer and withClusterIssuer never change IssuerStatus |
| Builder.SecretStatusIsolated | cmd/ctl/pkg/status/certificate/types.go:191-220 | calls other than withSecret never change SecretStatus |
| Builder.CRStatusIsolated | cmd/ctl/pkg/status/certificate/types.go:222-233 | calls other than withCR never change CRStatus |
| Builder.IssuerKindIsolated | cmd/ctl/pkg/status/certificate/types.go:162-165 | calls other than withIssuerKind never change IssuerKind |
| Builder.EventsIsolated | cmd/ctl/pkg/status/certificate/types.go:157-233 | calls other than withEvents and withCR never change Events |
| Builder.IssuerStatusProvenance | cmd/ctl/pkg/status/certificate/types.go:167-189 | after any sequence of calls, a failed IssuerStatus carries an error some Issuer or ClusterIssuer lookup reported, and an ok one comes from a found Issuer or ClusterIssuer with the matching kind, unless it was already there |
| Builder.SecretStatusProvenance | cmd/ctl/pkg/status/certificate/types.go:191-220 | after any sequence of calls, a failed SecretStatus carries a lookup error, the not-set message or a parse message, and an ok one holds a decoded certificate, unless it was already there |
| Builder.CRStatusProvenance | cmd/ctl/pkg/status/certificate/types.go:222-233 | after any sequence of calls, a failed CRStatus carries a request lookup error, and an ok one comes from a found request and never has events of its own, unless it was already there |
| Builder.EventsProvenance | cmd/ctl/pkg/status/certificate/types.go:157-233 | after any sequence of calls, Events is the initial value, or the events of some withEvents call or of some withCR call that found its request |
| Render.ConcatAppend | cmd/ctl/pkg/status/certificate/types.go:256-258 | accumulating two groups of lines is accumulating each in turn |
| Render.ConcatLength | cmd/ctl/pkg/status/certificate/types.go:256-261 | lines that are each at least min long accumulate to "" only when there are none |
| Render.LinesOf | cmd/ctl/pkg/status/certificate/types.go:256-258 | one line per condition |
| Render.ConditionsMessage | cmd/ctl/pkg/status/certificate/types.go:255-261 | the accumulating loop gives the conditions block: the condition lines, or the placeholder line when they are empty |
| Render.NoConditionsExactlyWhenEmpty | cmd/ctl/pkg/status/certificate/types.go:259-261 | the placeholder is printed if and only if there are no conditions; otherwise the block is exactly the condition lines |
| Render.ConditionLinesInOrder | cmd/ctl/pkg/status/certificate/types.go:256-258 | condition i has its own line, after the lines of the conditions before it and before those after it |
| Render.IssuerText | cmd/ctl/pkg/status/certificate/types.go:245-248 | a failed IssuerStatus renders as exactly its error message |
| Render.IssuerTextShowsCondition | cmd/ctl/pkg/status/certificate/types.go:250-262 | an ok Issuer renders as the name and kind header, then condition i's line between the lines of the conditions before and after it |
| Render.IssuerString | cmd/ctl/pkg/status/certificate/types.go:245-263 | the method, with its conditions loop, renders the Issuer text |
| Render.SecretText | cmd/ctl/pkg/status/certificate/types.go:266-269 | a failed SecretStatus renders as exactly its error message |
| Render.ExtKeyUsageShownKnown | cmd/ctl/pkg/status/certificate/types.go:285-289 | with every code known, the extended key usages line shows the joined labels |
| Render.ExtKeyUsageShownUnknown | cmd/ctl/pkg/status/certificate/types.go:285-288 | otherwise the line shows the error naming the first unknown code in place of the labels |
| Render.SerialNumberRecoverable | cmd/ctl/pkg/status/certificate/types.go:294 | the printed serial number decodes back to the serial's magnitude |
| Render.SerialNumber255 | cmd/ctl/pkg/status/certificate/types.go:294 | serial number 255 prints as "ff" |
| Render.SecretString | cmd/ctl/pkg/status/certificate/types.go:266-295 | the method, calling both decoders and substituting the extended-usage error, renders the Secret text |
| Render.CRText | cmd/ctl/pkg/status/certificate/types.go:348-351 | a failed CRStatus renders as exactly its error message |
| Render.CRTextShowsCondition | cmd/ctl/pkg/status/certificate/types.go:353-374 | an ok request renders as the "CertificateRequest:" header, then condition i's line between the lines of the conditions before and after it, then the described events |
| Render.CRString | cmd/ctl/pkg/status/certificate/types.go:348-377 | the method, with its conditions loop and the events appended, renders the CertificateRequest text |
| Scenarios.KeyUsageZero | cmd/ctl/pkg/status/certificate/types.go:316-334 | usage 0 prints "" |
| Scenarios.KeyUsageDigitalSignature | cmd/ctl/pkg/status/certificate/types.go:316-334 | usage 1 prints "Digital Signature" |
| Scenarios.KeyUsageTwoBits | cmd/ctl/pkg/status/certificate/types.go:316-334 | usage 3 prints "Digital Signature, Content Commitment" |
| Scenarios.KeyUsageDecipherOnly | cmd/ctl/pkg/status/certificate/types.go:316-334 | usage 256 prints "Decipher Only" |
| Scenarios.ExtKeyUsageKnown | cmd/ctl/pkg/status/certificate/types.go:336-345 | codes [0, 1] print "Any, Server Authentication" |
| Scenarios.ExtKeyUsageUnknown | cmd/ctl/pkg/status/certificate/types.go:338-341 | code 14 is unknown and named in the error; in [0, 14, 20] the first unknown code, 14, is the one reported |
| Scenarios.ExtKeyUsageNegative | cmd/ctl/pkg/status/certificate/types.go:339-340 | code -1 is unknown and printed with its sign |
| Scenarios.BuilderChain | cmd/ctl/pkg/status/certificate/types.go:147-233 | on a fresh builder, a found Issuer survives a later nil Issuer lookup; a Secret lookup error, a found request with events and the Certificate's fields each end up in the snapshot; the failed Secret renders as its error alone |
| Scenarios.SingleConditionBlock | cmd/ctl/pkg/status/certificate/types.go:255-261 | one condition renders as its own line; no conditions render as the placeholder |

## Left out

- X.509 parsing (`pki.DecodeX509CertificateBytes`, line 206) is a foreign library. The model passes it in as a decoder function from bytes to a certificate or an error message.
- Event rendering in `CRStatus.String` (lines 368-375) uses a tab writer, a prefix writer and `util.DescribeEvents`. The model passes it in as a function from the event list to text and appends that text after the conditions block.
- The `fmt.Println` at line 373 writes the event bytes to standard output as a side effect. The model does not include this I/O.
- Public-key and signature algorithms print through their own `String` methods. The model holds them as ready-made strings.
- Error values are modelled as their message strings. A nil error is `None`.
- `%q` is modelled for strconv.Quote's two-character escapes only: `"`, `\`, and `\a \b \f \n \r \t \v`. Go writes every other control or non-printable character as `\x..`, `\u....` or `\U........`. The model leaves those characters unescaped.
- Kubernetes and cert-manager API types become plain records holding only the fields the core reads. Timestamps and event lists are opaque values.
- Calling a `String` method on a nil receiver panics in Go. The model has no nil receivers, because every sub-status value exists.
- `x509.KeyUsage` is a Go `int`. The model uses unbounded integers, since no input the decoder can see comes near the 64-bit range.
