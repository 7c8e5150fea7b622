/**
 * The key-usage and extended-key-usage decoders of the certificate status
 * command (keyUsageToString, extKeyUsageToString) and their label tables.
 */
module Usage {
  import opened Wrappers
  import opened GoLib

  // ------------------------------------------------------------------ tables

  /** keyUsageToStringMap: the label of each single key-usage flag. */
  const KeyUsageToStringMap: map<int, string> := map[
    1 := "Digital Signature",
    2 := "Content Commitment",
    4 := "Key Encipherment",
    8 := "Data Encipherment",
    16 := "Key Agreement",
    32 := "Cert Sign",
    64 := "CRL Sign",
    128 := "Encipher Only",
    256 := "Decipher Only"
  ]

  /** keyUsagePossibleValues: the flags in the order the decoder tries them, largest first. */
  const KeyUsagePossibleValues: seq<int> := [256, 128, 64, 32, 16, 8, 4, 2, 1]

  /** extKeyUsageStringValues: the label of each extended-key-usage code, indexed by the code. */
  const ExtKeyUsageStringValues: seq<string> := [
    "Any", "Server Authentication", "Client Authentication", "Code Signing", "Email Protection",
    "IPSEC End System", "IPSEC Tunnel", "IPSEC User", "Time Stamping", "OCSP Signing",
    "Microsoft Server Gated Crypto", "Netscape Server Gated Crypto",
    "Microsoft Commercial Code Signing", "Microsoft Kernel Code Signing"
  ]

  /** The nine key-usage labels, lowest flag first. */
  const AllKeyUsageLabels: seq<string> := [
    "Digital Signature", "Content Commitment", "Key Encipherment", "Data Encipherment",
    "Key Agreement", "Cert Sign", "CRL Sign", "Encipher Only", "Decipher Only"
  ]

  /** A Go map index: a missing key reads as the empty string. */
  function KeyUsageLabel(val: int): string
  {
    if val in KeyUsageToStringMap then KeyUsageToStringMap[val] else ""
  }

  // --------------------------------------------------------------- sequences

  function Reversed<T>(s: seq<T>): (r: seq<T>)
    ensures |r| == |s|
    ensures forall k :: 0 <= k < |s| ==> r[k] == s[|s| - 1 - k]
  {
    if s == [] then [] else Reversed(s[1..]) + [s[0]]
  }

  lemma {:induction false} ReversedAppend<T>(a: seq<T>, b: seq<T>)
    ensures Reversed(a + b) == Reversed(b) + Reversed(a)
  {
    var l, r := Reversed(a + b), Reversed(b) + Reversed(a);
    assert |l| == |r|;
    forall k | 0 <= k < |l| ensures l[k] == r[k] {
      if k < |b| {
        assert l[k] == (a + b)[|a| + |b| - 1 - k] == b[|b| - 1 - k];
      } else {
        assert l[k] == (a + b)[|a| + |b| - 1 - k] == a[|a| - 1 - (k - |b|)];
      }
    }
  }

  lemma ReversedTwice<T>(s: seq<T>)
    ensures Reversed(Reversed(s)) == s
  {
    var r := Reversed(Reversed(s));
    assert |r| == |s|;
    forall k | 0 <= k < |s| ensures r[k] == s[k] {
      assert r[k] == Reversed(s)[|s| - 1 - k];
    }
  }

  /** Reversal keeps every element and how often it occurs. */
  lemma {:induction false} ReversedMultiset<T>(s: seq<T>)
    ensures multiset(Reversed(s)) == multiset(s)
  {
    if s != [] {
      ReversedMultiset(s[1..]);
      assert s == [s[0]] + s[1..];
    }
  }

  // ----------------------------------------------------- key usage, reference

  function Pow2(n: nat): (p: nat)
    ensures p >= 1
  {
    if n == 0 then 1 else 2 * Pow2(n - 1)
  }

  /** Entry k of the table is 2^(8-k). */
  lemma PossibleValue(k: nat)
    requires k < |KeyUsagePossibleValues|
    ensures KeyUsagePossibleValues[k] == Pow2(8 - k)
  {
    assert Pow2(1) == 2 && Pow2(2) == 4 && Pow2(3) == 8 && Pow2(4) == 16;
    assert Pow2(5) == 32 && Pow2(6) == 64 && Pow2(7) == 128 && Pow2(8) == 256;
  }

  /** Bit i of u is set. */
  predicate HasBit(u: int, i: nat)
    decreases i
  {
    if i == 0 then u % 2 == 1 else HasBit(u / 2, i - 1)
  }

  /** The labels of the bits set among bits lo .. 8 of u, lowest bit first. */
  function SetBitLabels(u: int, lo: nat): seq<string>
    decreases 9 - lo
  {
    if lo >= 9 then []
    else (if HasBit(u, lo) then [KeyUsageLabel(Pow2(lo))] else []) + SetBitLabels(u, lo + 1)
  }

  /** Below 2^(j+1), bit j is set exactly when the value reaches 2^j. */
  lemma {:induction false} TopBit(rem: int, j: nat)
    requires 0 <= rem < 2 * Pow2(j)
    ensures HasBit(rem, j) <==> rem >= Pow2(j)
  {
    if j > 0 {
      TopBit(rem / 2, j - 1);
    }
  }

  /** Taking 2^j away does not change the bits below j. */
  lemma {:induction false} SubtractKeepsLowBit(rem: int, j: nat, i: nat)
    requires i < j && Pow2(j) <= rem
    ensures HasBit(rem - Pow2(j), i) == HasBit(rem, i)
  {
    var p := Pow2(j - 1);
    assert Pow2(j) == 2 * p;
    if i > 0 {
      assert (rem - Pow2(j)) / 2 == rem / 2 - p;
      SubtractKeepsLowBit(rem / 2, j - 1, i - 1);
    }
  }

  // ------------------------------------------------------ key usage, the loop

  /**
   * The running remainder once the decoding loop has looked at the first k
   * table entries: each entry that fits is subtracted.
   */
  function Remainder(usage: int, k: nat): (r: int)
    requires k <= |KeyUsagePossibleValues|
    ensures r <= usage
    ensures usage >= 0 ==> r >= 0
  {
    if k == 0 then usage
    else
      var rem := Remainder(usage, k - 1);
      var val := KeyUsagePossibleValues[k - 1];
      if rem >= val then rem - val else rem
  }

  /** The labels collected from the first k table entries, in collection order. */
  function Collected(usage: int, k: nat): seq<string>
    requires k <= |KeyUsagePossibleValues|
  {
    if k == 0 then []
    else
      var val := KeyUsagePossibleValues[k - 1];
      Collected(usage, k - 1) + (if Remainder(usage, k - 1) >= val then [KeyUsageLabel(val)] else [])
  }

  /** The labels keyUsageToString joins: everything collected, reversed. */
  function KeyUsageLabels(usage: int): seq<string>
  {
    Reversed(Collected(usage, |KeyUsagePossibleValues|))
  }

  /**
   * Once the remainder is zero no later entry fits, so the early exit of the
   * loop does not change what is collected.
   */
  lemma {:induction false} ExhaustedStays(usage: int, k: nat, k': nat)
    requires k <= k' <= |KeyUsagePossibleValues|
    requires Remainder(usage, k) == 0
    ensures Remainder(usage, k') == 0 && Collected(usage, k') == Collected(usage, k)
    decreases k' - k
  {
    if k' > k {
      ExhaustedStays(usage, k, k' - 1);
    }
  }

  /**
   * Below 512, after k entries the remainder is below 2^(9-k) and agrees with
   * usage on the bits still to be looked at.
   */
  lemma {:induction false} RemainderIsLowBits(usage: int, k: nat)
    requires 0 <= usage < 512
    requires k <= |KeyUsagePossibleValues|
    ensures 0 <= Remainder(usage, k) < Pow2(9 - k)
    ensures forall i: nat :: i < 9 - k ==> HasBit(Remainder(usage, k), i) == HasBit(usage, i)
  {
    if k == 0 {
      assert Pow2(9) == 512;
    } else {
      RemainderIsLowBits(usage, k - 1);
      var j := 9 - k;
      var rem := Remainder(usage, k - 1);
      PossibleValue(k - 1);
      assert Pow2(j + 1) == 2 * Pow2(j);
      forall i: nat | i < j ensures HasBit(Remainder(usage, k), i) == HasBit(usage, i) {
        if rem >= Pow2(j) {
          SubtractKeepsLowBit(rem, j, i);
        }
      }
    }
  }

  /** Below 512, the first k entries collect the set bits among bits 9-k .. 8, highest first. */
  lemma {:induction false} CollectedIsBinary(usage: int, k: nat)
    requires 0 <= usage < 512
    requires k <= |KeyUsagePossibleValues|
    ensures Collected(usage, k) == Reversed(SetBitLabels(usage, 9 - k))
  {
    if k > 0 {
      CollectedIsBinary(usage, k - 1);
      RemainderIsLowBits(usage, k - 1);
      var j := 9 - k;
      var rem := Remainder(usage, k - 1);
      PossibleValue(k - 1);
      assert Pow2(j + 1) == 2 * Pow2(j);
      TopBit(rem, j);
      assert HasBit(rem, j) == HasBit(usage, j);
      var t := if HasBit(usage, j) then [KeyUsageLabel(Pow2(j))] else [];
      assert Collected(usage, k) == Collected(usage, k - 1) + t;
      assert SetBitLabels(usage, j) == t + SetBitLabels(usage, j + 1);
      ReversedAppend(t, SetBitLabels(usage, j + 1));
      assert Reversed(t) == t;
    }
  }

  /**
   * For 0 <= usage < 512 the decoder lists exactly the labels of the bits set
   * in usage, lowest bit first, each once.
   */
  lemma KeyUsageIsBitDecomposition(usage: int)
    requires 0 <= usage < 512
    ensures KeyUsageLabels(usage) == SetBitLabels(usage, 0)
  {
    CollectedIsBinary(usage, |KeyUsagePossibleValues|);
    ReversedTwice(SetBitLabels(usage, 0));
  }

  lemma {:induction false} CollectedNonPositive(usage: int, k: nat)
    requires usage <= 0
    requires k <= |KeyUsagePossibleValues|
    ensures Remainder(usage, k) == usage && Collected(usage, k) == []
  {
    if k > 0 {
      CollectedNonPositive(usage, k - 1);
    }
  }

  /** Zero and every negative value decode to no label at all. */
  lemma KeyUsageNonPositive(usage: int)
    requires usage <= 0
    ensures KeyUsageLabels(usage) == []
    ensures Join(KeyUsageLabels(usage), ", ") == ""
  {
    CollectedNonPositive(usage, |KeyUsagePossibleValues|);
  }

  /** The labels of the first k table entries, in table order. */
  function TableLabels(k: nat): seq<string>
    requires k <= |KeyUsagePossibleValues|
  {
    if k == 0 then [] else TableLabels(k - 1) + [KeyUsageLabel(KeyUsagePossibleValues[k - 1])]
  }

  lemma {:induction false} CollectedSaturated(usage: int, k: nat)
    requires usage >= 511
    requires k <= |KeyUsagePossibleValues|
    ensures Remainder(usage, k) >= Pow2(9 - k) - 1
    ensures Collected(usage, k) == TableLabels(k)
  {
    if k == 0 {
      assert Pow2(9) == 512;
    } else {
      CollectedSaturated(usage, k - 1);
      PossibleValue(k - 1);
      assert Pow2(10 - k) == 2 * Pow2(9 - k);
    }
  }

  /**
   * Bits above bit 8 are not ignored: from 511 on the remainder never runs
   * out, so all nine labels are listed (512 gives all nine as well).
   */
  lemma KeyUsageSaturates(usage: int)
    requires usage >= 511
    ensures KeyUsageLabels(usage) == AllKeyUsageLabels
  {
    CollectedSaturated(usage, |KeyUsagePossibleValues|);
    CollectedSaturated(511, |KeyUsagePossibleValues|);
    KeyUsageIsBitDecomposition(511);
    AllBitsSet();
  }

  /** 511 has all nine bits set. */
  lemma AllBitsSet()
    ensures SetBitLabels(511, 0) == AllKeyUsageLabels
  {
    assert SetBitLabels(511, 6) == ["CRL Sign", "Encipher Only", "Decipher Only"];
    assert SetBitLabels(511, 3) == ["Data Encipherment", "Key Agreement", "Cert Sign"] + SetBitLabels(511, 6);
  }

  /** The label of bit i is the i-th of the nine labels. */
  lemma BitLabel(i: nat)
    requires i < 9
    ensures KeyUsageLabel(Pow2(i)) == AllKeyUsageLabels[i]
  {
    assert Pow2(1) == 2 && Pow2(2) == 4 && Pow2(3) == 8 && Pow2(4) == 16;
    assert Pow2(5) == 32 && Pow2(6) == 64 && Pow2(7) == 128 && Pow2(8) == 256;
  }

  /** No label occurs twice. */
  predicate NoDuplicates(s: seq<string>)
  {
    forall i, j :: 0 <= i < j < |s| ==> s[i] != s[j]
  }

  /** The nine labels are distinct. */
  lemma AllLabelsDistinct()
    ensures NoDuplicates(AllKeyUsageLabels)
  {
  }

  /** Two different positions hold different labels. */
  lemma LabelsDiffer(i: nat, j: nat)
    requires i < j < 9
    ensures AllKeyUsageLabels[i] != AllKeyUsageLabels[j]
  {
    AllLabelsDistinct();
  }

  /** The list from bit lo is bit lo's label, when that bit is set, followed by the list from lo + 1. */
  lemma SetBitLabelsStep(u: int, lo: nat)
    requires lo < 9
    ensures HasBit(u, lo) ==> SetBitLabels(u, lo) == [AllKeyUsageLabels[lo]] + SetBitLabels(u, lo + 1)
    ensures !HasBit(u, lo) ==> SetBitLabels(u, lo) == SetBitLabels(u, lo + 1)
  {
    BitLabel(lo);
  }

  /** The labels of bits lo .. 8 of u include none of the labels below lo. */
  lemma {:induction false} SetBitLabelsAbove(u: int, lo: nat)
    requires lo <= 9
    ensures forall i :: 0 <= i < lo ==> AllKeyUsageLabels[i] !in SetBitLabels(u, lo)
    decreases 9 - lo
  {
    if lo < 9 {
      SetBitLabelsAbove(u, lo + 1);
      SetBitLabelsStep(u, lo);
      var tail := SetBitLabels(u, lo + 1);
      forall i | 0 <= i < lo ensures AllKeyUsageLabels[i] !in SetBitLabels(u, lo) {
        assert AllKeyUsageLabels[i] !in tail;
        LabelsDiffer(i, lo);
        assert AllKeyUsageLabels[i] !in [AllKeyUsageLabels[lo]];
      }
    }
  }

  /** Among bits lo .. 8 of u, label i is listed exactly when bit i is set. */
  lemma {:induction false} SetBitLabelsMembers(u: int, lo: nat)
    requires lo <= 9
    ensures forall i :: lo <= i < 9 ==> (AllKeyUsageLabels[i] in SetBitLabels(u, lo) <==> HasBit(u, i))
    decreases 9 - lo
  {
    if lo < 9 {
      SetBitLabelsMembers(u, lo + 1);
      SetBitLabelsAbove(u, lo + 1);
      SetBitLabelsStep(u, lo);
      forall i | lo < i < 9 ensures AllKeyUsageLabels[i] in SetBitLabels(u, lo) <==> HasBit(u, i) {
        LabelsDiffer(lo, i);
      }
    }
  }

  /** No label is listed twice. */
  lemma {:induction false} SetBitLabelsDistinct(u: int, lo: nat)
    requires lo <= 9
    ensures NoDuplicates(SetBitLabels(u, lo))
    decreases 9 - lo
  {
    if lo < 9 {
      SetBitLabelsDistinct(u, lo + 1);
      SetBitLabelsAbove(u, lo + 1);
      SetBitLabelsStep(u, lo);
    }
  }

  /**
   * Below 512 the decoder lists label i exactly when bit i of the usage is
   * set, lowest bit first, and no label twice.
   */
  lemma KeyUsageLabelsAreSetBits(usage: int)
    requires 0 <= usage < 512
    ensures forall i :: 0 <= i < 9 ==> (AllKeyUsageLabels[i] in KeyUsageLabels(usage) <==> HasBit(usage, i))
    ensures NoDuplicates(KeyUsageLabels(usage))
  {
    KeyUsageIsBitDecomposition(usage);
    SetBitLabelsMembers(usage, 0);
    SetBitLabelsDistinct(usage, 0);
  }

  /**
   * One step of the loop: the remainder never grows, and it shrinks exactly
   * when a label is collected.
   */
  lemma RemainderShrinksExactlyOnMatch(usage: int, k: nat)
    requires k < |KeyUsagePossibleValues|
    ensures Remainder(usage, k + 1) <= Remainder(usage, k)
    ensures Remainder(usage, k + 1) < Remainder(usage, k) <==> |Collected(usage, k + 1)| == |Collected(usage, k)| + 1
    ensures Remainder(usage, k + 1) == Remainder(usage, k) <==> Collected(usage, k + 1) == Collected(usage, k)
  {
  }

  /** Reverses a list by swapping the i-th and the opposite element, as the decoder does. */
  method ReverseLabels(xs: seq<string>) returns (ys: seq<string>)
    ensures ys == Reversed(xs)
  {
    ys := xs;
    var n := |ys|;
    var i := 0;
    while i < n / 2
      invariant 0 <= i <= n / 2
      invariant |ys| == n
      invariant forall k :: 0 <= k < i ==> ys[k] == xs[n - 1 - k] && ys[n - 1 - k] == xs[k]
      invariant forall k :: i <= k < n - i ==> ys[k] == xs[k]
    {
      var opp := n - 1 - i;
      ys := ys[i := ys[opp]][opp := ys[i]];
      i := i + 1;
    }
  }

  /** keyUsageToString. */
  method KeyUsageToString(usage: int) returns (s: string)
    ensures s == Join(KeyUsageLabels(usage), ", ")
  {
    var usageInt := usage;
    var usageStrings: seq<string> := [];
    var k := 0;
    while k < |KeyUsagePossibleValues|
      invariant 0 <= k <= |KeyUsagePossibleValues|
      invariant usageInt == Remainder(usage, k)
      invariant usageStrings == Collected(usage, k)
      invariant k > 0 ==> usageInt != 0
    {
      var val := KeyUsagePossibleValues[k];
      if usageInt >= val {
        usageInt := usageInt - val;
        usageStrings := usageStrings + [KeyUsageLabel(val)];
      }
      if usageInt == 0 {
        ExhaustedStays(usage, k + 1, |KeyUsagePossibleValues|);
        break;
      }
      k := k + 1;
    }
    usageStrings := ReverseLabels(usageStrings);
    s := Join(usageStrings, ", ");
  }

  // ------------------------------------------------------- extended key usage

  predicate KnownExtKeyUsage(code: int)
  {
    0 <= code < |ExtKeyUsageStringValues|
  }

  /** The position of the first code outside the table, if there is one. */
  function FirstUnknown(codes: seq<int>): (r: Option<nat>)
    ensures r.None? <==> forall j :: 0 <= j < |codes| ==> KnownExtKeyUsage(codes[j])
    ensures r.Some? ==> r.value < |codes| && !KnownExtKeyUsage(codes[r.value])
    ensures r.Some? ==> forall j :: 0 <= j < r.value ==> KnownExtKeyUsage(codes[j])
  {
    if codes == [] then None
    else if !KnownExtKeyUsage(codes[0]) then Some(0)
    else match FirstUnknown(codes[1..])
      case None => None
      case Some(i) => Some(i + 1)
  }

  /** The table labels of known codes, in input order. */
  function ExtKeyUsageLabels(codes: seq<int>): (r: seq<string>)
    requires forall j :: 0 <= j < |codes| ==> KnownExtKeyUsage(codes[j])
  {
    if codes == [] then []
    else
      assert KnownExtKeyUsage(codes[|codes| - 1]);
      ExtKeyUsageLabels(codes[..|codes| - 1]) + [ExtKeyUsageStringValues[codes[|codes| - 1]]]
  }

  lemma {:induction false} ExtKeyUsageLabelsAt(codes: seq<int>)
    requires forall j :: 0 <= j < |codes| ==> KnownExtKeyUsage(codes[j])
    ensures |ExtKeyUsageLabels(codes)| == |codes|
    ensures forall j :: 0 <= j < |codes| ==> ExtKeyUsageLabels(codes)[j] == ExtKeyUsageStringValues[codes[j]]
  {
    if codes != [] {
      ExtKeyUsageLabelsAt(codes[..|codes| - 1]);
    }
  }

  const UnknownExtKeyUsagePrefix: string :=
    "error when converting Extended Usages to string: encountered unknown Extended Usage with code "

  function UnknownExtKeyUsageMessage(code: int): string
  {
    UnknownExtKeyUsagePrefix + FormatInt(code)
  }

  /** The error message names the offending code: it can be read back from the message. */
  lemma UnknownMessageNamesCode(code: int)
    ensures UnknownExtKeyUsageMessage(code)[..|UnknownExtKeyUsagePrefix|] == UnknownExtKeyUsagePrefix
    ensures ParseInt(UnknownExtKeyUsageMessage(code)[|UnknownExtKeyUsagePrefix|..]) == code
  {
    var m := UnknownExtKeyUsageMessage(code);
    assert m[|UnknownExtKeyUsagePrefix|..] == FormatInt(code);
    FormatIntRoundTrip(code);
  }

  /**
   * What extKeyUsageToString promises: the joined labels when every code is
   * known, otherwise the error for the first unknown code.
   */
  function ExtKeyUsageText(codes: seq<int>): Result<string, string>
  {
    match FirstUnknown(codes)
    case Some(i) => Err(UnknownExtKeyUsageMessage(codes[i]))
    case None => Ok(Join(ExtKeyUsageLabels(codes), ", "))
  }

  /** extKeyUsageToString: on the first unknown code, the empty string and an error. */
  method ExtKeyUsageToString(extUsages: seq<int>) returns (s: string, err: Option<string>)
    ensures ExtKeyUsageText(extUsages).Ok? ==> s == ExtKeyUsageText(extUsages).value && err == None
    ensures ExtKeyUsageText(extUsages).Err? ==> s == "" && err == Some(ExtKeyUsageText(extUsages).error)
  {
    var extUsageStrings: seq<string> := [];
    for i := 0 to |extUsages|
      invariant forall j :: 0 <= j < i ==> KnownExtKeyUsage(extUsages[j])
      invariant extUsageStrings == ExtKeyUsageLabels(extUsages[..i])
    {
      var extUsage := extUsages[i];
      if extUsage < 0 || extUsage >= |ExtKeyUsageStringValues| {
        return "", Some(UnknownExtKeyUsageMessage(extUsage));
      }
      assert extUsages[..i + 1][..i] == extUsages[..i];
      extUsageStrings := extUsageStrings + [ExtKeyUsageStringValues[extUsage]];
    }
    assert extUsages[..|extUsages|] == extUsages;
    return Join(extUsageStrings, ", "), None;
  }

  /** Any unknown code makes the whole conversion fail, naming the first such code. */
  lemma ExtKeyUsageFailsOnFirstUnknown(codes: seq<int>, i: nat)
    requires i < |codes| && !KnownExtKeyUsage(codes[i])
    requires forall j :: 0 <= j < i ==> KnownExtKeyUsage(codes[j])
    ensures ExtKeyUsageText(codes) == Err(UnknownExtKeyUsageMessage(codes[i]))
  {
    var r := FirstUnknown(codes);
    assert r.Some?;
    assert !(r.value < i) && !(r.value > i);
  }

  /** With only known codes the conversion succeeds with one label per code, in input order. */
  lemma ExtKeyUsageSucceeds(codes: seq<int>)
    requires forall j :: 0 <= j < |codes| ==> KnownExtKeyUsage(codes[j])
    ensures ExtKeyUsageText(codes).Ok?
    ensures ExtKeyUsageText(codes).value == Join(ExtKeyUsageLabels(codes), ", ")
    ensures |ExtKeyUsageLabels(codes)| == |codes|
    ensures forall j :: 0 <= j < |codes| ==> ExtKeyUsageLabels(codes)[j] == ExtKeyUsageStringValues[codes[j]]
  {
    ExtKeyUsageLabelsAt(codes);
  }
}
