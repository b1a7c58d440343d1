/** The persistent settings of the device, and which values they may take. */
module ConfigValues {
  import opened Bits
  import opened ConfigFile
  import opened Text

  datatype Variable =
    | UsbHostname | UsbIpaddr | UsbIpaddrHost | UsbNetmask | UsbEthernetMode
    | NetworkMode | NetworkIpaddr | NetworkNetmask | NetworkGateway
    | XoCorrection | UdcHandleSuspend

  /** The shell variables. */
  datatype Settings = Settings(
    usbHostname: string, usbIpaddr: string, usbIpaddrHost: string, usbNetmask: string, usbEthernetMode: string,
    networkMode: string, networkIpaddr: string, networkNetmask: string, networkGateway: string,
    xoCorrection: string, udcHandleSuspend: string)
  {
    function Get(x: Variable): string {
      match x
      case UsbHostname => usbHostname
      case UsbIpaddr => usbIpaddr
      case UsbIpaddrHost => usbIpaddrHost
      case UsbNetmask => usbNetmask
      case UsbEthernetMode => usbEthernetMode
      case NetworkMode => networkMode
      case NetworkIpaddr => networkIpaddr
      case NetworkNetmask => networkNetmask
      case NetworkGateway => networkGateway
      case XoCorrection => xoCorrection
      case UdcHandleSuspend => udcHandleSuspend
    }

    function With(x: Variable, value: string): (s: Settings)
      ensures s.Get(x) == value
      ensures forall y :: y != x ==> s.Get(y) == Get(y)
    {
      match x
      case UsbHostname => this.(usbHostname := value)
      case UsbIpaddr => this.(usbIpaddr := value)
      case UsbIpaddrHost => this.(usbIpaddrHost := value)
      case UsbNetmask => this.(usbNetmask := value)
      case UsbEthernetMode => this.(usbEthernetMode := value)
      case NetworkMode => this.(networkMode := value)
      case NetworkIpaddr => this.(networkIpaddr := value)
      case NetworkNetmask => this.(networkNetmask := value)
      case NetworkGateway => this.(networkGateway := value)
      case XoCorrection => this.(xoCorrection := value)
      case UdcHandleSuspend => this.(udcHandleSuspend := value)
    }
  }

  ghost predicate SameValues(s: Settings, t: Settings) {
    forall x: Variable :: s.Get(x) == t.Get(x)
  }

  lemma SameSettings(s: Settings, t: Settings)
    requires SameValues(s, t)
    ensures s == t
  {
    assert s.Get(UsbHostname) == t.Get(UsbHostname);
    assert s.Get(UsbIpaddr) == t.Get(UsbIpaddr);
    assert s.Get(UsbIpaddrHost) == t.Get(UsbIpaddrHost);
    assert s.Get(UsbNetmask) == t.Get(UsbNetmask);
    assert s.Get(UsbEthernetMode) == t.Get(UsbEthernetMode);
    assert s.Get(NetworkMode) == t.Get(NetworkMode);
    assert s.Get(NetworkIpaddr) == t.Get(NetworkIpaddr);
    assert s.Get(NetworkNetmask) == t.Get(NetworkNetmask);
    assert s.Get(NetworkGateway) == t.Get(NetworkGateway);
    assert s.Get(XoCorrection) == t.Get(XoCorrection);
    assert s.Get(UdcHandleSuspend) == t.Get(UdcHandleSuspend);
  }

  /** Every value cut at its first line end. */
  function FirstLines(s: Settings): Settings {
    Settings(FirstLine(s.usbHostname), FirstLine(s.usbIpaddr), FirstLine(s.usbIpaddrHost), FirstLine(s.usbNetmask),
             FirstLine(s.usbEthernetMode), FirstLine(s.networkMode), FirstLine(s.networkIpaddr),
             FirstLine(s.networkNetmask), FirstLine(s.networkGateway), FirstLine(s.xoCorrection),
             FirstLine(s.udcHandleSuspend))
  }

  lemma FirstLinesGet(s: Settings, x: Variable)
    ensures FirstLines(s).Get(x) == FirstLine(s.Get(x))
  {
  }

  // ---------------------------------------------------------------------
  // Dotted quads.

  predicate AllDigits(text: string) {
    forall i :: 0 <= i < |text| ==> IsDigit(text[i])
  }

  /** The number that digits denote. */
  function Decimal(text: string): nat
    requires AllDigits(text)
  {
    if text == [] then 0 else 10 * Decimal(text[..|text| - 1]) + (text[|text| - 1] as int - '0' as int)
  }

  /** The fields of an awk record with `.` between them; an empty record has none. */
  function Fields(record: string): seq<string> {
    if record == [] then [] else SplitDots(record)
  }

  function SplitDots(text: string): (fields: seq<string>)
    ensures fields != []
    decreases |text|
  {
    var dot := IndexOf(text, '.');
    if dot == |text| then [text] else [text[..dot]] + SplitDots(text[dot + 1..])
  }

  predicate IsOctet(field: string) {
    field != [] && AllDigits(field) && Decimal(field) <= 255
  }

  predicate IsQuad(record: string) {
    var fields := Fields(record);
    |fields| == 4 && forall i :: 0 <= i < 4 ==> IsOctet(fields[i])
  }

  predicate ValidIpv4(value: string) {
    value != [] && forall i :: 0 <= i < |Records(value)| ==> IsQuad(Records(value)[i])
  }

  predicate ValidOptionalIpv4(value: string) {
    value == [] || ValidIpv4(value)
  }

  // ---------------------------------------------------------------------
  // Netmasks.

  /** A field that compares equal to `n`: awk compares digits as a number. */
  predicate Equals(field: string, n: nat) {
    field != [] && AllDigits(field) && Decimal(field) == n
  }

  /** The texts that end the run of ones. */
  predicate IsPartialOctet(field: string) {
    field in {"0", "128", "192", "224", "240", "248", "252", "254"}
  }

  /** The check over the fields, once a field below 255 was seen or not. */
  predicate MaskFrom(fields: seq<string>, zeroTail: bool) {
    if fields == [] then true
    else if zeroTail then Equals(fields[0], 0) && MaskFrom(fields[1..], true)
    else if Equals(fields[0], 255) then MaskFrom(fields[1..], false)
    else IsPartialOctet(fields[0]) && MaskFrom(fields[1..], true)
  }

  predicate IsMask(record: string) {
    |Fields(record)| == 4 && MaskFrom(Fields(record), false)
  }

  predicate AreMasks(records: seq<string>) {
    records == [] || (AreMasks(records[..|records| - 1]) && IsMask(records[|records| - 1]))
  }

  lemma {:induction false} EachIsMask(records: seq<string>, i: nat)
    requires AreMasks(records) && i < |records|
    ensures IsMask(records[i])
    decreases |records|
  {
    if i < |records| - 1 {
      EachIsMask(records[..|records| - 1], i);
    }
  }

  lemma {:induction false} MasksBefore(records: seq<string>, n: nat)
    requires AreMasks(records) && n <= |records|
    ensures AreMasks(records[..n])
    decreases |records|
  {
    if n < |records| {
      MasksBefore(records[..|records| - 1], n);
      assert records[..|records| - 1][..n] == records[..n];
    } else {
      assert records[..n] == records;
    }
  }

  predicate ValidNetmask(value: string) {
    AreMasks(Records(value))
  }

  /** `n` octets whose first `p` bits are ones and the others zeros. */
  function PrefixOctets(p: nat, n: nat): seq<nat> {
    if n == 0 then []
    else if p >= 8 then [255] + PrefixOctets(p - 8, n - 1)
    else [256 - Pow2(8 - p)] + PrefixOctets(0, n - 1)
  }

  predicate AreNumbers(fields: seq<string>) {
    forall i :: 0 <= i < |fields| ==> fields[i] != [] && AllDigits(fields[i])
  }

  function Values(fields: seq<string>): seq<nat>
    requires AreNumbers(fields)
  {
    seq(|fields|, i requires 0 <= i < |fields| => Decimal(fields[i]))
  }

  /** Digits without a leading zero. */
  predicate IsCanonical(field: string) {
    field != [] && AllDigits(field) && (1 < |field| ==> field[0] != '0')
  }

  lemma DecimalOfThree(text: string)
    requires |text| == 3 && AllDigits(text)
    ensures Decimal(text)
         == 100 * (text[0] as int - '0' as int) + 10 * (text[1] as int - '0' as int) + (text[2] as int - '0' as int)
  {
    var two := text[..2];
    var one := two[..1];
    assert Decimal(one[..0]) == 0;
    assert Decimal(one) == text[0] as int - '0' as int;
    assert Decimal(two) == 10 * Decimal(one) + (text[1] as int - '0' as int);
  }

  /** The text of an octet with `p` leading ones. */
  function PartialText(p: nat): string
    requires p < 8
  {
    match p
    case 0 => "0"
    case 1 => "128"
    case 2 => "192"
    case 3 => "224"
    case 4 => "240"
    case 5 => "248"
    case 6 => "252"
    case _ => "254"
  }

  lemma PartialOctetsAreTheTexts(field: string)
    ensures IsPartialOctet(field) <==> exists p :: 0 <= p < 8 && field == PartialText(p)
  {
    assert PartialText(0) == "0" && PartialText(1) == "128" && PartialText(2) == "192" && PartialText(3) == "224";
    assert PartialText(4) == "240" && PartialText(5) == "248" && PartialText(6) == "252" && PartialText(7) == "254";
  }

  lemma PartialTextValue(p: nat)
    requires p < 8
    ensures IsCanonical(PartialText(p)) && Decimal(PartialText(p)) == 256 - Pow2(8 - p) <= 254
  {
    var text := PartialText(p);
    if p == 0 {
      assert Decimal(text[..0]) == 0;
    } else {
      DecimalOfThree(text);
    }
    SmallPowers();
  }

  lemma SmallPowers()
    ensures Pow2(1) == 2 && Pow2(2) == 4 && Pow2(3) == 8 && Pow2(4) == 16
    ensures Pow2(5) == 32 && Pow2(6) == 64 && Pow2(7) == 128 && Pow2(8) == 256
  {
    assert Pow2(0) == 1;
    assert Pow2(1) == 2;
    assert Pow2(2) == 4;
    assert Pow2(3) == 8;
    assert Pow2(4) == 16;
    assert Pow2(5) == 32;
    assert Pow2(6) == 64;
    assert Pow2(7) == 128;
  }

  lemma {:induction false} Positive(text: string)
    requires text != [] && AllDigits(text) && text[0] != '0'
    ensures 0 < Decimal(text)
    decreases |text|
  {
    if 1 < |text| {
      Positive(text[..|text| - 1]);
    }
  }

  /** Canonical digits are the only ones for their number. */
  lemma {:induction false} DecimalUnique(f: string, g: string)
    requires IsCanonical(f) && IsCanonical(g) && Decimal(f) == Decimal(g)
    ensures f == g
    decreases |f|
  {
    var f', g' := f[..|f| - 1], g[..|g| - 1];
    assert Decimal(f') == Decimal(f) / 10 == Decimal(g') && f[|f| - 1] == g[|g| - 1];
    if 1 < |f| {
      Positive(f');
    }
    if 1 < |g| {
      Positive(g');
    }
    assert Decimal([]) == 0;
    if f' != [] {
      DecimalUnique(f', g');
    }
    assert f == f' + [f[|f| - 1]] && g == g' + [g[|g| - 1]];
  }

  lemma ValuesFirst(fields: seq<string>)
    requires AreNumbers(fields) && fields != []
    ensures Values(fields) == [Decimal(fields[0])] + Values(fields[1..])
  {
  }

  /** The fields say `p` ones and then zeros. */
  predicate SaysPrefix(fields: seq<string>, p: nat) {
    AreNumbers(fields) && p <= 8 * |fields| && Values(fields) == PrefixOctets(p, |fields|)
  }

  lemma ExtendPrefix(fields: seq<string>, p: nat, rest: nat)
    requires fields != [] && fields[0] != [] && AllDigits(fields[0]) && SaysPrefix(fields[1..], rest)
    requires if p >= 8 then Decimal(fields[0]) == 255 && rest == p - 8
             else Decimal(fields[0]) == 256 - Pow2(8 - p) && rest == 0
    ensures SaysPrefix(fields, p)
  {
    assert AreNumbers(fields) by {
      assert forall i :: 0 < i < |fields| ==> fields[i] == fields[1..][i - 1];
    }
    ValuesFirst(fields);
  }

  lemma {:induction false} PrefixOfMask(fields: seq<string>, zeroTail: bool) returns (p: nat)
    requires MaskFrom(fields, zeroTail)
    ensures SaysPrefix(fields, p) && (zeroTail ==> p == 0)
  {
    p := 0;
    if fields != [] {
      var full := !zeroTail && Equals(fields[0], 255);
      var rest := PrefixOfMask(fields[1..], !full);
      SmallPowers();
      if full {
        p := 8 + rest;
      } else if !zeroTail {
        PartialOctetsAreTheTexts(fields[0]);
        p :| 0 <= p < 8 && fields[0] == PartialText(p);
        PartialTextValue(p);
      }
      ExtendPrefix(fields, p, rest);
    }
  }

  lemma {:induction false} PrefixIsMask(fields: seq<string>, p: nat, zeroTail: bool)
    requires forall i :: 0 <= i < |fields| ==> IsCanonical(fields[i])
    requires SaysPrefix(fields, p) && (zeroTail ==> p == 0)
    ensures MaskFrom(fields, zeroTail)
  {
    if fields != [] {
      ValuesFirst(fields);
      SmallPowers();
      var octets := PrefixOctets(p, |fields|);
      assert Decimal(fields[0]) == octets[0];
      assert Values(fields[1..]) == octets[1..];
      if p >= 8 {
        PrefixIsMask(fields[1..], p - 8, false);
      } else {
        PartialTextValue(p);
        DecimalUnique(fields[0], PartialText(p));
        PartialOctetsAreTheTexts(fields[0]);
        PrefixIsMask(fields[1..], 0, true);
      }
    }
  }

  /** Octets without leading zeros pass the check exactly when they are ones and then zeros. */
  lemma NetmaskIsPrefix(fields: seq<string>)
    requires forall i :: 0 <= i < |fields| ==> IsCanonical(fields[i])
    ensures MaskFrom(fields, false) <==> exists p :: SaysPrefix(fields, p)
  {
    if MaskFrom(fields, false) {
      var p := PrefixOfMask(fields, false);
    }
    if p :| SaysPrefix(fields, p) {
      PrefixIsMask(fields, p, false);
    }
  }

  /** Leading zeros or not, whatever passes is ones and then zeros. */
  lemma AcceptedNetmaskIsPrefix(fields: seq<string>)
    requires MaskFrom(fields, false)
    ensures exists p :: SaysPrefix(fields, p)
  {
    var p := PrefixOfMask(fields, false);
  }

  // ---------------------------------------------------------------------
  // The other settings, and all of them.

  predicate IsHostnameChar(c: char) {
    'A' <= c <= 'Z' || 'a' <= c <= 'z' || IsDigit(c) || c == '-'
  }

  predicate ValidHostname(value: string) {
    && 0 < |value| <= 63
    && value[0] != '-' && value[|value| - 1] != '-'
    && forall i :: 0 <= i < |value| ==> IsHostnameChar(value[i])
  }

  predicate Valid(s: Settings) {
    && ValidHostname(s.usbHostname)
    && ValidIpv4(s.usbIpaddr)
    && ValidIpv4(s.usbIpaddrHost)
    && ValidNetmask(s.usbNetmask)
    && s.usbEthernetMode in {"rndis", "ncm", "ecm"}
    && s.networkMode in {"dhcp", "static"}
    && ValidOptionalIpv4(s.networkIpaddr)
    && ValidNetmask(s.networkNetmask)
    && ValidOptionalIpv4(s.networkGateway)
    && (s.networkMode == "static" ==> s.networkIpaddr != [])
    && s.udcHandleSuspend in {"0", "1"}
    && AllDigits(s.xoCorrection)
  }
}
