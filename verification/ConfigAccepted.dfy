/**
 The values that pass the checks, with every character, limit and choice written
 out, and the shipped defaults among them.
 */
module ConfigAccepted {
  import opened Basics
  import opened BootEnvironment
  import opened Text
  import opened ConfigFile
  import opened ConfigValues
  import opened ConfigNames
  import opened Config
  import opened ConfigImport

  /** One to 63 letters, digits and hyphens, with no hyphen first or last. */
  predicate IsHostname(value: string) {
    && 1 <= |value| <= 63
    && IsLetterOrDigit(value[0]) && IsLetterOrDigit(value[|value| - 1])
    && forall k :: 0 <= k < |value| ==> IsLetterOrDigit(value[k]) || value[k] == '-'
  }

  lemma LettersAgree(c: char)
    ensures IsHostnameChar(c) <==> IsLetterOrDigit(c) || c == '-'
  {
  }

  lemma HostnameIsWritten(value: string)
    ensures ValidHostname(value) <==> IsHostname(value)
  {
    forall k | 0 <= k < |value|
      ensures IsHostnameChar(value[k]) <==> IsLetterOrDigit(value[k]) || value[k] == '-'
    {
      LettersAgree(value[k]);
    }
  }

  /** Decimal digits. */
  predicate IsNumeral(text: string) {
    text != [] && forall k :: 0 <= k < |text| ==> text[k] in {'0', '1', '2', '3', '4', '5', '6', '7', '8', '9'}
  }

  lemma NumeralsAgree(text: string)
    ensures IsNumeral(text) <==> text != [] && AllDigits(text)
  {
    forall k | 0 <= k < |text|
      ensures IsDigit(text[k]) <==> text[k] in {'0', '1', '2', '3', '4', '5', '6', '7', '8', '9'}
    {
    }
  }

  function Dotted(a: string, b: string, c: string, d: string): string {
    a + ("." + (b + ("." + (c + ("." + d)))))
  }

  /** Texts without dots between three dots are the fields, and four fields are such texts. */
  lemma FieldsOfDotted(a: string, b: string, c: string, d: string)
    requires '.' !in a && '.' !in b && '.' !in c && '.' !in d
    ensures Fields(Dotted(a, b, c, d)) == [a, b, c, d]
  {
    SplitThree(b, c, d);
    FieldsFirst(Dotted(a, b, c, d), a, b + ("." + (c + ("." + d))), [b, c, d], [a, b, c, d]);
  }

  lemma FieldsFirst(text: string, first: string, rest: string, more: seq<string>, all: seq<string>)
    requires text == first + ("." + rest) && '.' !in first && SplitDots(rest) == more && all == [first] + more
    ensures Fields(text) == all
  {
    SplitFirst(first, rest);
    assert text[|first|] == '.';
  }

  lemma SplitThree(b: string, c: string, d: string)
    requires '.' !in b && '.' !in c && '.' !in d
    ensures SplitDots(b + ("." + (c + ("." + d)))) == [b, c, d]
  {
    SplitFirst(b, c + ("." + d));
    SplitFirst(c, d);
    IndexOfNone(d, '.');
    assert SplitDots(d) == [d];
    assert [b] + ([c] + [d]) == [b, c, d];
  }

  lemma SplitFirst(first: string, rest: string)
    requires '.' !in first
    ensures SplitDots(first + ("." + rest)) == [first] + SplitDots(rest)
  {
    var text := first + ("." + rest);
    assert text == first + ['.'] + rest;
    IndexOfSplit(first, '.', rest);
    assert text[..|first|] == first && text[|first| + 1..] == rest;
  }

  lemma SplitOff(text: string, first: string, more: seq<string>) returns (rest: string)
    requires SplitDots(text) == [first] + more && more != []
    ensures text == first + ("." + rest) && '.' !in first && SplitDots(rest) == more
  {
    var dot := IndexOf(text, '.');
    rest := text[dot + 1..];
    assert text == text[..dot] + ("." + rest);
    assert SplitDots(text)[1..] == more && ([text[..dot]] + SplitDots(rest))[1..] == SplitDots(rest);
  }

  lemma SplitIsOne(text: string, only: string)
    requires SplitDots(text) == [only]
    ensures text == only && '.' !in only
  {
  }

  lemma FourFieldsAreDotted(text: string)
    requires |Fields(text)| == 4
    ensures var f := Fields(text);
            text == Dotted(f[0], f[1], f[2], f[3]) && forall k :: 0 <= k < 4 ==> '.' !in f[k]
  {
    var f := Fields(text);
    FourAreDotted(text, f[0], f[1], f[2], f[3]);
  }

  lemma FourAreDotted(text: string, a: string, b: string, c: string, d: string)
    requires SplitDots(text) == [a, b, c, d]
    ensures text == Dotted(a, b, c, d) && '.' !in a && '.' !in b && '.' !in c && '.' !in d
  {
    assert [a, b, c, d] == [a] + [b, c, d] && [b, c, d] == [b] + [c, d] && [c, d] == [c] + [d];
    var r1 := SplitOff(text, a, [b, c, d]);
    var r2 := SplitOff(r1, b, [c, d]);
    var r3 := SplitOff(r2, c, [d]);
    SplitIsOne(r3, d);
  }

  /** Four numerals of at most 255 with dots between them. */
  predicate IsAddressOf(record: string, a: string, b: string, c: string, d: string) {
    && record == Dotted(a, b, c, d)
    && IsNumeral(a) && IsNumeral(b) && IsNumeral(c) && IsNumeral(d)
    && Decimal(a) <= 255 && Decimal(b) <= 255 && Decimal(c) <= 255 && Decimal(d) <= 255
  }

  lemma NumeralHasNoDot(text: string)
    requires IsNumeral(text)
    ensures '.' !in text && AllDigits(text)
  {
    NumeralsAgree(text);
  }

  lemma QuadIsWritten(record: string)
    ensures IsQuad(record) <==> exists a, b, c, d :: IsAddressOf(record, a, b, c, d)
  {
    if IsQuad(record) {
      var f := Fields(record);
      FourFieldsAreDotted(record);
      forall k | 0 <= k < 4
        ensures IsNumeral(f[k])
      {
        NumeralsAgree(f[k]);
      }
      assert IsAddressOf(record, f[0], f[1], f[2], f[3]);
    }
    if a, b, c, d :| IsAddressOf(record, a, b, c, d) {
      NumeralHasNoDot(a);
      NumeralHasNoDot(b);
      NumeralHasNoDot(c);
      NumeralHasNoDot(d);
      FieldsOfDotted(a, b, c, d);
    }
  }

  /** Numerals without leading zeros with dots between them are a mask exactly when their bits are ones and then zeros. */
  lemma MaskIsWritten(a: string, b: string, c: string, d: string)
    requires IsCanonical(a) && IsCanonical(b) && IsCanonical(c) && IsCanonical(d)
    ensures IsMask(Dotted(a, b, c, d)) <==> exists p :: SaysPrefix([a, b, c, d], p)
  {
    FieldsOfDotted(a, b, c, d);
    NetmaskIsPrefix([a, b, c, d]);
  }

  /** Every mask is four numerals with dots between them. */
  lemma MaskIsDotted(record: string)
    requires IsMask(record)
    ensures exists a, b, c, d, p :: record == Dotted(a, b, c, d) && SaysPrefix([a, b, c, d], p)
  {
    var f := Fields(record);
    FourFieldsAreDotted(record);
    AcceptedNetmaskIsPrefix(f);
    var p :| SaysPrefix(f, p);
    assert f == [f[0], f[1], f[2], f[3]];
    assert record == Dotted(f[0], f[1], f[2], f[3]) && SaysPrefix([f[0], f[1], f[2], f[3]], p);
  }

  /** Every line of the value is an address. */
  ghost predicate IsAddress(value: string) {
    value != [] && forall r :: r in Lines(value + "\n") ==> exists a, b, c, d :: IsAddressOf(r, a, b, c, d)
  }

  ghost predicate IsNetmask(value: string) {
    forall r :: r in Lines(value + "\n") ==> IsMask(r)
  }

  lemma AddressIsWritten(value: string)
    ensures ValidIpv4(value) <==> IsAddress(value)
  {
    var records := Records(value);
    assert Terminated(value) == value + "\n";
    forall r | r in records
      ensures IsQuad(r) <==> exists a, b, c, d :: IsAddressOf(r, a, b, c, d)
    {
      QuadIsWritten(r);
    }
    if ValidIpv4(value) {
      forall r | r in records
        ensures IsQuad(r)
      {
        var i :| 0 <= i < |records| && records[i] == r;
      }
    }
  }

  lemma NetmaskIsWritten(value: string)
    ensures ValidNetmask(value) <==> IsNetmask(value)
  {
    assert Terminated(value) == value + "\n";
    EachMask(Records(value));
  }

  lemma {:induction false} EachMask(records: seq<string>)
    ensures AreMasks(records) <==> forall r :: r in records ==> IsMask(r)
    decreases |records|
  {
    if records != [] {
      EachMask(records[..|records| - 1]);
      assert records == records[..|records| - 1] + [records[|records| - 1]];
    }
  }

  /** The settings that pass the checks. */
  lemma ValidIsWritten(s: Settings)
    ensures Valid(s) <==>
              && IsHostname(s.usbHostname)
              && IsAddress(s.usbIpaddr) && IsAddress(s.usbIpaddrHost) && IsNetmask(s.usbNetmask)
              && (s.usbEthernetMode == "rndis" || s.usbEthernetMode == "ncm" || s.usbEthernetMode == "ecm")
              && (s.networkMode == "dhcp" || (s.networkMode == "static" && s.networkIpaddr != ""))
              && (s.networkIpaddr == "" || IsAddress(s.networkIpaddr))
              && IsNetmask(s.networkNetmask)
              && (s.networkGateway == "" || IsAddress(s.networkGateway))
              && (s.udcHandleSuspend == "0" || s.udcHandleSuspend == "1")
              && (s.xoCorrection == "" || IsNumeral(s.xoCorrection))
  {
    HostnameIsWritten(s.usbHostname);
    AddressIsWritten(s.usbIpaddr);
    AddressIsWritten(s.usbIpaddrHost);
    AddressIsWritten(s.networkIpaddr);
    AddressIsWritten(s.networkGateway);
    NetmaskIsWritten(s.usbNetmask);
    NetmaskIsWritten(s.networkNetmask);
    NumeralsAgree(s.xoCorrection);
  }

  // ---------------------------------------------------------------------
  // The shipped defaults over a fresh environment.

  lemma OneLine(value: string)
    requires '\n' !in value
    ensures Lines(value + "\n") == [value] && FirstLine(value) == value && Chomp(value) == value
  {
    FirstLineOf(value, "");
    assert value + "\n" + "" == value + "\n";
    IndexOfNone(value, '\n');
  }

  lemma DottedIsAddress(a: string, b: string, c: string, d: string)
    requires IsNumeral(a) && IsNumeral(b) && IsNumeral(c) && IsNumeral(d)
    requires Decimal(a) <= 255 && Decimal(b) <= 255 && Decimal(c) <= 255 && Decimal(d) <= 255
    ensures IsAddress(Dotted(a, b, c, d)) && '\n' !in Dotted(a, b, c, d)
  {
    var value := Dotted(a, b, c, d);
    assert IsAddressOf(value, a, b, c, d);
    OneLine(value);
  }

  lemma NumeralValues()
    ensures IsNumeral("0") && IsNumeral("1") && IsNumeral("2") && IsNumeral("10")
    ensures IsNumeral("168") && IsNumeral("192") && IsNumeral("255")
    ensures Decimal("0") == 0 && Decimal("1") == 1 && Decimal("2") == 2 && Decimal("10") == 10
    ensures Decimal("168") == 168 && Decimal("192") == 192 && Decimal("255") == 255
  {
    assert "10"[..1] == "1" && "10"[..1][..0] == [];
    DecimalOfThree("168");
    DecimalOfThree("192");
    DecimalOfThree("255");
    assert "0"[..0] == [] && "1"[..0] == [] && "2"[..0] == [];
  }

  lemma DottedTexts()
    ensures Dotted("192", "168", "2", "1") == "192.168.2.1"
    ensures Dotted("192", "168", "2", "10") == "192.168.2.10"
    ensures Dotted("255", "255", "255", "0") == "255.255.255.0"
  {
  }

  lemma ShippedAddress(value: string, a: string, b: string, c: string, d: string)
    requires value == Dotted(a, b, c, d) && a == "192" && b == "168" && c == "2" && (d == "1" || d == "10")
    ensures IsAddress(value)
  {
    NumeralValues();
    DottedIsAddress(a, b, c, d);
  }

  lemma ThreeFullFields(ones: string, zeros: string)
    requires Equals(ones, 255) && Equals(zeros, 0) && IsPartialOctet(zeros)
    ensures MaskFrom([ones, ones, ones, zeros], false)
  {
    var fields := [ones, ones, ones, zeros];
    assert fields[1..] == [ones, ones, zeros] && fields[1..][1..] == [ones, zeros];
    assert fields[1..][1..][1..] == [zeros] && [zeros][1..] == [];
    assert MaskFrom([], true);
    assert MaskFrom([zeros], false);
    assert MaskFrom([ones, zeros], false);
    assert MaskFrom([ones, ones, zeros], false);
  }

  lemma ShippedMask(value: string, ones: string, zeros: string)
    requires value == Dotted(ones, ones, ones, zeros) && ones == "255" && zeros == "0"
    ensures IsNetmask(value)
  {
    NumeralValues();
    NumeralHasNoDot(ones);
    NumeralHasNoDot(zeros);
    FieldsOfDotted(ones, ones, ones, zeros);
    ThreeFullFields(ones, zeros);
    assert '\n' !in value;
    OneLine(value);
  }

  lemma HostnameOfSix(value: string)
    requires |value| == 6 && forall k :: 0 <= k < 6 ==> IsLetterOrDigit(value[k])
    ensures IsHostname(value)
  {
  }

  lemma ShippedHostname(value: string)
    requires value == "antsdr"
    ensures IsHostname(value)
  {
    assert value == ['a', 'n', 't', 's', 'd', 'r'];
    HostnameOfSix(value);
  }

  lemma ShippedValues()
    ensures var s := ShippedDefaults();
            && s.usbHostname == "antsdr" && s.usbIpaddr == "192.168.2.1" && s.usbIpaddrHost == "192.168.2.10"
            && s.usbNetmask == "255.255.255.0" && s.usbEthernetMode == "rndis" && s.networkMode == "dhcp"
            && s.networkIpaddr == "" && s.networkNetmask == "255.255.255.0" && s.networkGateway == ""
            && s.xoCorrection == "" && s.udcHandleSuspend == "0"
  {
  }

  lemma DefaultsPass(s: Settings)
    requires IsHostname(s.usbHostname) && IsAddress(s.usbIpaddr) && IsAddress(s.usbIpaddrHost)
    requires IsNetmask(s.usbNetmask) && IsNetmask(s.networkNetmask)
    requires s.usbEthernetMode == "rndis" && s.networkMode == "dhcp" && s.udcHandleSuspend == "0"
    requires s.networkIpaddr == "" && s.networkGateway == "" && s.xoCorrection == ""
    ensures Valid(s)
  {
    ValidIsWritten(s);
  }

  /** The defaults that ship pass the checks. */
  lemma ShippedAreValid()
    ensures Valid(ShippedDefaults())
  {
    var s := ShippedDefaults();
    ShippedValues();
    DottedTexts();
    ShippedHostname(s.usbHostname);
    ShippedAddress(s.usbIpaddr, "192", "168", "2", "1");
    ShippedAddress(s.usbIpaddrHost, "192", "168", "2", "10");
    ShippedMask(s.usbNetmask, "255", "0");
    ShippedMask(s.networkNetmask, "255", "0");
    DefaultsPass(s);
  }

  lemma LoadsDefaults(vars: Settings, env: Environment)
    requires forall x: Variable :: '\n' !in vars.Get(x) && EnvName(x) !in env
    requires vars.networkIpaddr != "" ==> vars.networkMode == "static"
    ensures Load(vars, env) == vars
  {
    forall x: Variable
      ensures Load(vars, env).Get(x) == vars.Get(x)
    {
      OneLine(vars.Get(x));
      OneLine(vars.Get(NetworkIpaddr));
      LoadedGet(vars, env, x);
      assert Chomp([]) == [];
    }
    SameSettings(Load(vars, env), vars);
  }

  lemma EmptyTextSaysNothing(text: string)
    requires text == ""
    ensures Parse(IsAllowed, text) == []
  {
    assert Lines(text) == [];
    assert Classified([]) == [];
  }

  lemma SettledByNothing(vars: Settings, env: Environment, text: string)
    requires Parse(IsAllowed, text) == [] && Load(vars, env) == vars
    ensures Settled(vars, env, text).values == vars && Settled(vars, env, text).report == "0"
  {
  }

  lemma DefaultsAreStored(vars: Settings, env: Environment, keeps: bool, x: Variable)
    requires Valid(vars) && '\n' !in vars.Get(x)
    ensures Lookup(Store(env, vars, keeps), EnvName(x)) == Kept(vars.Get(x), keeps)
  {
    ValidAreExportable(vars);
    StoredSettings(env, vars, keeps, x);
    OneLine(vars.Get(x));
  }

  /** Over an environment with none of the names, an empty file stores the defaults, whatever valid ones they are. */
  lemma EmptyFileStoresDefaults(vars: Settings, env: Environment, text: string, keeps: bool)
    requires text == "" && Valid(vars) && "qspiboot" in env
    requires forall x: Variable :: '\n' !in vars.Get(x) && EnvName(x) !in env
    requires vars.networkIpaddr != "" ==> vars.networkMode == "static"
    ensures Import(vars, env, text, keeps) == Ok(Store(env, vars, keeps))
    ensures forall x: Variable :: Lookup(Store(env, vars, keeps), EnvName(x)) == Kept(vars.Get(x), keeps)
  {
    LoadsDefaults(vars, env);
    EmptyTextSaysNothing(text);
    SettledByNothing(vars, env, text);
    AcceptedImport(vars, env, text, keeps);
    forall x: Variable
      ensures Lookup(Store(env, vars, keeps), EnvName(x)) == Kept(vars.Get(x), keeps)
    {
      DefaultsAreStored(vars, env, keeps, x);
    }
  }

  lemma AcceptedImport(vars: Settings, env: Environment, text: string, keeps: bool)
    requires var l := Settled(vars, env, text);
             Valid(l.values) && l.report == "0" && "qspiboot" in env
    ensures Import(vars, env, text, keeps) == Ok(Store(env, Settled(vars, env, text).values, keeps))
  {
  }

  lemma ShippedAreSingleLines(x: Variable)
    ensures '\n' !in ShippedDefaults().Get(x)
  {
  }

  /** Exactly when an import is accepted. */
  lemma ImportIsAccepted(vars: Settings, env: Environment, text: string, keeps: bool)
    ensures var l := Settled(vars, env, text);
            Import(vars, env, text, keeps).Ok?
            <==> Valid(l.values) && (l.report == "0" || l.report == "1") && "qspiboot" in env
  {
  }

  /** So a fresh device imports an empty file as the shipped defaults. */
  lemma ShippedOverFresh(env: Environment, keeps: bool)
    requires "qspiboot" in env && forall x: Variable :: EnvName(x) !in env
    ensures Import(ShippedDefaults(), env, "", keeps) == Ok(Store(env, ShippedDefaults(), keeps))
    ensures forall x: Variable ::
              Lookup(Store(env, ShippedDefaults(), keeps), EnvName(x)) == Kept(ShippedDefaults().Get(x), keeps)
  {
    ShippedAreValid();
    forall x: Variable
      ensures '\n' !in ShippedDefaults().Get(x)
    {
      ShippedAreSingleLines(x);
    }
    NoAddressShipped();
    EmptyFileStoresDefaults(ShippedDefaults(), env, "", keeps);
  }

  lemma NoAddressShipped()
    ensures ShippedDefaults().networkIpaddr == ""
  {
  }
}
