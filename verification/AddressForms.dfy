/** What printed addresses look like, in terms of the bytes, the characters and the field of the checksum. */
module AddressForms {
  import opened Powers
  import opened BitStrings
  import opened ConvertBits
  import opened Checksum
  import opened ChecksumField
  import opened Text
  import opened Address
  import opened AddressOptions
  import opened AddressCodec
  import opened AddressLimits
  import opened Wrappers

  // ---------------------------------------------------------------------------------------
  // Types, by the bytes
  // ---------------------------------------------------------------------------------------

  predicate AllZero(raw: seq<nat>) {
    forall i | 0 <= i < |raw| :: raw[i] == 0
  }

  /** The bytes are of the type with this name; any other name stands for the unknown types. */
  predicate HasType(raw: seq<nat>, name: string)
    requires raw != []
  {
    if name == "user" then 0x10 <= raw[0] < 0x20
    else if name == "contract" then 0x80 <= raw[0] < 0x90
    else if name == "null" then AllZero(raw)
    else if name == "builtin" then raw[0] < 0x10 && !AllZero(raw)
    else raw[0] >= 0x20 && !(0x80 <= raw[0] < 0x90)
  }

  lemma TypeOfBytes(raw: seq<nat>, name: string)
    requires raw != []
    ensures TypeOf(raw) == ParseType(name) <==> HasType(raw, name)
  {
    assert raw[0] / 16 == 0 <==> raw[0] < 16;
    assert raw[0] / 16 == 8 <==> 128 <= raw[0] < 144;
    assert raw[0] / 16 == 1 <==> 16 <= raw[0] < 32;
  }

  lemma UpperAppend(a: string, b: string)
    ensures ToUpper(a + b) == ToUpper(a) + ToUpper(b)
  {
  }

  lemma UpperKeepsColon(a: string)
    ensures ':' in ToUpper(a) <==> ':' in a
  {
    forall i | 0 <= i < |a|
      ensures ToUpper(a)[i] == ':' <==> a[i] == ':'
    {
    }
  }

  /** The pieces of an upper-cased text with an option. */
  lemma UpperPieces(prefix: string, name: string, body: string)
    requires Plain(prefix) && Plain(name) && Plain(body)
    ensures Split(ToUpper(prefix + ":type." + name + ":" + body), ':')
         == [ToUpper(prefix), ToUpper("type." + name), ToUpper(body)]
  {
    var option := "type." + name;
    QrText(prefix, name, body);
    PlainText(prefix);
    PlainText(body);
    UpperAppend(prefix + [':'] + option + [':'], body);
    UpperAppend(prefix + [':'] + option, [':']);
    UpperAppend(prefix + [':'], option);
    UpperAppend(prefix, [':']);
    assert ToUpper([':']) == [':'];
    UpperKeepsColon(prefix);
    UpperKeepsColon(option);
    UpperKeepsColon(body);
    QrSplit(ToUpper(prefix), ToUpper(option), ToUpper(body));
  }

  function UpperOption(t: AddressType): string {
    match t
    case Builtin => "TYPE.BUILTIN"
    case Contract => "TYPE.CONTRACT"
    case Null => "TYPE.NULL"
    case User => "TYPE.USER"
    case Unknown => "TYPE.UNKNOWN"
  }

  lemma OptionInUpperCase(t: AddressType)
    ensures ToUpper("type." + TypeName(t)) == UpperOption(t)
  {
  }

  lemma UpperOptionsDiffer(t: AddressType, t': AddressType)
    ensures UpperOption(t) == UpperOption(t') <==> t == t'
  {
    if t != t' {
      assert |UpperOption(t)| != |UpperOption(t')| || UpperOption(t)[5] != UpperOption(t')[5];
    }
  }

  lemma QrPieceOf(raw: seq<nat>, network: Network, name: string, t: AddressType)
    requires Symbols(raw, 8) && ValidNetwork(network) && Encode(raw, network, QrCode).Encoded?
    requires t == ParseType(name)
    ensures |Split(Encode(raw, network, QrCode).text, ':')| == 3
    ensures Split(Encode(raw, network, QrCode).text, ':')[1] == UpperOption(t) <==> HasType(raw, name)
  {
    var prefix, version := ToPrefix(network).value, VersionByte(|raw|).value;
    PrefixChars(network);
    BodyParses(prefix, PayloadSymbols(version, raw));
    TypeOption(TypeOf(raw));
    UpperPieces(prefix, TypeName(TypeOf(raw)), PrintBody(prefix, PayloadSymbols(version, raw)));
    OptionInUpperCase(TypeOf(raw));
    UpperOptionsDiffer(TypeOf(raw), t);
    TypeOfBytes(raw, name);
  }

  /** The second piece of the form for codes names the type that the bytes have. */
  lemma QrNamesType(raw: seq<nat>, network: Network)
    requires Symbols(raw, 8) && ValidNetwork(network) && Encode(raw, network, QrCode).Encoded?
    ensures var pieces := Split(Encode(raw, network, QrCode).text, ':');
            && |pieces| == 3
            && (pieces[1] == "TYPE.USER" <==> 0x10 <= raw[0] < 0x20)
            && (pieces[1] == "TYPE.CONTRACT" <==> 0x80 <= raw[0] < 0x90)
            && (pieces[1] == "TYPE.NULL" <==> AllZero(raw))
            && (pieces[1] == "TYPE.BUILTIN" <==> raw[0] < 0x10 && !AllZero(raw))
            && (pieces[1] == "TYPE.UNKNOWN" <==> raw[0] >= 0x20 && !(0x80 <= raw[0] < 0x90))
  {
    QrPieceOf(raw, network, "user", User);
    QrPieceOf(raw, network, "contract", Contract);
    QrPieceOf(raw, network, "null", Null);
    QrPieceOf(raw, network, "builtin", Builtin);
    QrPieceOf(raw, network, "unknown", Unknown);
  }

  lemma TypedPayload(input: string, raw: seq<nat>, network: Network, name: string, payload: seq<nat>)
    requires |raw| == 20 && payload == [0] + raw
    ensures CheckPayload(input, payload, network, Some(ParseType(name))) ==
            if HasType(raw, name) then Decoded(input, raw, Some(raw), network)
            else Rejected(TypeMismatch(ParseType(name), TypeOf(raw)))
  {
    assert payload[1..] == raw;
    TypeOfBytes(raw, name);
  }

  lemma PrintedBody(input: string, prefix: string, symbols: seq<nat>, network: Network, expected: Option<AddressType>)
    requires Symbols(symbols, 5)
    ensures var all := symbols + ChecksumOf(prefix, symbols);
            && Symbols(all, 5)
            && DecodeBody(input, prefix, PrintBody(prefix, symbols), network, expected)
            == CheckSymbols(input, prefix, all, network, expected)
  {
    BodyParses(prefix, symbols);
  }

  lemma TypedBody(input: string, prefix: string, raw: seq<nat>, network: Network, name: string)
    requires Symbols(raw, 8) && |raw| == 20
    ensures DecodeBody(input, prefix, PrintBody(prefix, PayloadSymbols(0, raw)), network, Some(ParseType(name))) ==
            if HasType(raw, name) then Decoded(input, raw, Some(raw), network)
            else Rejected(TypeMismatch(ParseType(name), TypeOf(raw)))
  {
    PrintedBody(input, prefix, PayloadSymbols(0, raw), network, Some(ParseType(name)));
    BodyDecodes(input, prefix, 0, raw, network, Some(ParseType(name)));
    TypedPayload(input, raw, network, name, [0] + raw);
  }

  lemma TypedParts(input: string, prefix: string, name: string, body: string, network: Network)
    requires FromPrefix(prefix) == Some(network) && '.' !in name
    ensures DecodeParts(input, [prefix, "type." + name, body])
         == DecodeBody(input, prefix, body, network, Some(ParseType(name)))
  {
    OneTypeOption(name);
    assert [prefix, "type." + name, body][1..2] == ["type." + name];
  }

  lemma TypedText(prefix: string, name: string, body: string)
    requires Plain(prefix) && Plain(name) && Plain(body)
    ensures var addr := prefix + ":type." + name + ":" + body;
            IsAscii(addr) && Decode(addr) == DecodeParts(addr, [prefix, "type." + name, body])
  {
    var addr := prefix + ":type." + name + ":" + body;
    QrText(prefix, name, body);
    LowerOfUpper(addr);
    PlainText(prefix);
    PlainText(body);
    QrSplit(prefix, "type." + name, body);
    assert IsAscii(addr) by {
      PlainText(name);
    }
  }

  /** A 20-byte address with a type option decodes exactly when its bytes have that type. */
  lemma TypedDecodesIff(raw: seq<nat>, network: Network, prefix: string, name: string)
    requires Symbols(raw, 8) && |raw| == 20 && ValidNetwork(network) && ToPrefix(network) == Some(prefix) && Plain(name)
    ensures var addr := prefix + ":type." + name + ":" + PrintBody(prefix, PayloadSymbols(0, raw));
            && IsAscii(addr)
            && (if HasType(raw, name) then Decode(addr) == Decoded(addr, raw, Some(raw), network)
                else Decode(addr) == Rejected(TypeMismatch(ParseType(name), TypeOf(raw))))
  {
    var body := PrintBody(prefix, PayloadSymbols(0, raw));
    var addr := prefix + ":type." + name + ":" + body;
    assert Plain(body) by {
      BodyParses(prefix, PayloadSymbols(0, raw));
    }
    PrefixChars(network);
    PlainText(name);
    TypedText(prefix, name, body);
    FromPrinted(network);
    TypedParts(addr, prefix, name, body, network);
    TypedBody(addr, prefix, raw, network, name);
  }

  lemma OneTypeOption(name: string)
    requires '.' !in name
    ensures ParseOptions(["type." + name]) == Options(Some(ParseType(name)))
  {
    var option := "type." + name;
    OptionPair(name);
    assert [option][..0] == [];
    assert GivesType(option);
  }

  // ---------------------------------------------------------------------------------------
  // The layout of a text
  // ---------------------------------------------------------------------------------------

  /** Lengths and versions: 20 to 32 bytes in steps of four, and twice that. */
  lemma VersionLengths(length: nat, version: nat)
    ensures VersionByte(length) == Some(version) <==>
            version < 8 && length == (20 + 4 * (version % 4)) * (1 + version / 4)
  {
    if version < 4 {
      assert version % 4 == version && version / 4 == 0;
    } else if version < 8 {
      assert version % 4 == version - 4 && version / 4 == 1;
    }
  }

  /** The prefix of each network. */
  ghost predicate IsPrefixOf(prefix: string, network: Network) {
    match network
    case Main => prefix == "mazze"
    case Test => prefix == "mazzetest"
    case Id(id) =>
      && id != 1 && id != 1990 && |prefix| > 3 && prefix[..3] == "net"
      && AllDigits(prefix[3..]) && Value(prefix[3..]) == id && (prefix[3] == '0' ==> prefix == "net0")
  }

  lemma {:induction false} NoLeadingZero(n: nat)
    ensures Print(n)[0] == '0' ==> n == 0
  {
    if n >= 10 {
      NoLeadingZero(n / 10);
    }
  }

  lemma PrefixIsOf(network: Network, prefix: string)
    requires ToPrefix(network) == Some(prefix)
    ensures IsPrefixOf(prefix, network)
  {
    if network.Id? {
      ValueOfPrint(network.id);
      NoLeadingZero(network.id);
      assert prefix[3..] == Print(network.id) && prefix[..3] == "net";
      assert prefix[3] == Print(network.id)[0];
    }
  }

  /** The low five bits of each character of the prefix, and a zero. */
  ghost predicate Expands(prefix: string, v: seq<nat>) {
    |v| == |prefix| + 1 && v[|prefix|] == 0 && forall i | 0 <= i < |prefix| :: v[i] == prefix[i] as int % 32
  }

  /**
   The symbols after the colon: the bits of the version byte, of the bytes and fewer than five zeros,
   and eight symbols that make the whole, with the prefix before it, one modulo the generator.
   */
  ghost predicate IsLayout(v: seq<nat>, head: seq<nat>, raw: seq<nat>, version: nat, zeros: nat) {
    && Symbols(v, 5) && Symbols(head, 5) && Symbols(raw, 8) && version < Pow2(8) && |v| >= 8 && zeros < 5
    && Bits(v[..|v| - 8], 5) == ToBits(version, 8) + Bits(raw, 8) + Zeros(zeros)
    && IsRemainder(OneSymbols() + SymbolBits(head + v), OneSymbols())
  }

  lemma PayloadLayout(version: nat, raw: seq<nat>) returns (zeros: nat)
    requires version < 8 && Symbols(raw, 8)
    ensures zeros < 5 && version < Pow2(8)
    ensures Bits(PayloadSymbols(version, raw), 5) == ToBits(version, 8) + Bits(raw, 8) + Zeros(zeros)
  {
    assert Pow2(8) == 256;
    PayloadIsBytes(version, raw);
    zeros := PaddedKeepsBits([version] + raw, 8, 5);
    BitsCons([version] + raw, 8);
    assert ([version] + raw)[1..] == raw;
  }

  lemma ZeroChecksum(data: seq<nat>)
    requires Symbols(data, 5)
    ensures Polymod(data) == Zeros(40) <==> IsRemainder(OneSymbols() + SymbolBits(data), OneSymbols())
  {
    PolymodIsRemainder(data, OneSymbols());
    SelfXor(OneSymbols());
    FlattenCut(Polymod(data), 8);
    FlattenCut(Zeros(40), 8);
    CutZeros();
  }

  lemma CutZeros()
    ensures CutSymbols(Zeros(40), 8) == ZeroSymbols(8)
  {
    forall j | 0 <= j < 8
      ensures CutSymbols(Zeros(40), 8)[j] == Zeros(5)
    {
      assert Zeros(40)[5 * j..5 * j + 5] == Zeros(5);
    }
  }

  /** A printed address is a prefix, a colon and the characters of symbols with this layout. */
  lemma EncodedLayout(raw: seq<nat>, network: Network)
      returns (prefix: string, v: seq<nat>, head: seq<nat>, version: nat, zeros: nat)
    requires Symbols(raw, 8) && Encode(raw, network, Simple).Encoded?
    ensures IsPrefixOf(prefix, network) && Expands(prefix, head)
    ensures version < 8 && |raw| == (20 + 4 * (version % 4)) * (1 + version / 4)
    ensures IsLayout(v, head, raw, version, zeros)
    ensures Encode(raw, network, Simple).text == prefix + ":" + PrintSymbols(v)
  {
    prefix, version := ToPrefix(network).value, VersionByte(|raw|).value;
    var symbols := PayloadSymbols(version, raw);
    head := ExpandPrefix(prefix);
    v := symbols + ChecksumOf(prefix, symbols);
    PrefixIsOf(network, prefix);
    VersionLengths(|raw|, version);
    zeros := PayloadLayout(version, raw);
    ChecksumChecks(prefix, symbols);
    ZeroChecksum(head + v);
    assert v[..|v| - 8] == symbols;
    PrintAppend(symbols, ChecksumOf(prefix, symbols));
  }

  // ---------------------------------------------------------------------------------------
  // Other prefixes
  // ---------------------------------------------------------------------------------------

  lemma BurstBefore(a: seq<nat>, x: seq<nat>, x': seq<nat>, b: seq<nat>, symbols: seq<nat>)
    requires Symbols(a, 5) && Symbols(x, 5) && Symbols(x', 5) && Symbols(b, 5) && Symbols(symbols, 5)
    requires |x| == |x'| <= 8 && x != x'
    ensures Polymod((a + x + b) + symbols) != Polymod((a + x' + b) + symbols)
  {
    assert (a + x + b) + symbols == a + x + (b + symbols);
    assert (a + x' + b) + symbols == a + x' + (b + symbols);
    BurstChangesChecksum(a, x, x', b + symbols);
  }

  lemma OtherHead(head: seq<nat>, head': seq<nat>, k: nat, symbols: seq<nat>)
    requires Symbols(head, 5) && Symbols(head', 5) && Symbols(symbols, 5) && DifferInWindow(head, head', k)
    ensures Polymod(head + symbols) != Polymod(head' + symbols)
  {
    var start, end := if k <= |head| then k else |head|, if k + 8 <= |head| then k + 8 else |head|;
    WindowParts(head, head', start, end);
    BurstBefore(head[..start], head[start..end], head'[start..end], head[end..], symbols);
  }

  lemma OtherPrefixBody(input: string, prefix: string, prefix': string, k: nat, symbols: seq<nat>, network: Network)
    requires DifferInWindow(ExpandPrefix(prefix), ExpandPrefix(prefix'), k) && Symbols(symbols, 5)
    ensures var r := DecodeBody(input, prefix', PrintBody(prefix, symbols), network, None);
            r.Rejected? && r.error.ChecksumFailed?
  {
    var all := symbols + ChecksumOf(prefix, symbols);
    ChecksumChecks(prefix, symbols);
    OtherHead(ExpandPrefix(prefix), ExpandPrefix(prefix'), k, all);
    assert PrintBody(prefix, symbols) != [] && ParseSymbols(PrintBody(prefix, symbols)) == Parsed(all) by {
      BodyParses(prefix, symbols);
    }
    LateErrors(input, prefix', all, network, None);
  }

  /**
   What is printed for one prefix fails its checksum after another of the same length, when the low
   five bits of their characters differ, inside eight consecutive characters.
   */
  lemma OtherPrefixRejected(prefix: string, prefix': string, k: nat, symbols: seq<nat>)
    requires Plain(prefix) && Plain(prefix') && FromPrefix(prefix').Some? && Symbols(symbols, 5)
    requires DifferInWindow(ExpandPrefix(prefix), ExpandPrefix(prefix'), k)
    ensures var addr := prefix' + ":" + PrintBody(prefix, symbols);
            IsAscii(addr) && Decode(addr).Rejected? && Decode(addr).error.ChecksumFailed?
  {
    var body := PrintBody(prefix, symbols);
    assert Plain(body) by {
      BodyParses(prefix, symbols);
    }
    SimpleText(prefix', body);
    assert [prefix', body][1..1] == [];
    OtherPrefixBody(prefix' + ":" + body, prefix, prefix', k, symbols, FromPrefix(prefix').value);
  }

  // ---------------------------------------------------------------------------------------
  // Errors
  // ---------------------------------------------------------------------------------------

  /** Everything before the payload is in order. */
  predicate HeadAccepted(addr: string) {
    && !MixedCased(addr) && |Parts(addr)| >= 2 && FromPrefix(Parts(addr)[0]).Some?
    && ParseOptions(Parts(addr)[1..|Parts(addr)| - 1]).Options?
  }

  lemma {:induction false} OnePiece(s: string, sep: char)
    ensures |Split(s, sep)| == 1 <==> sep !in s
  {
    if s != [] {
      OnePiece(s[1..], sep);
      assert s == [s[0]] + s[1..];
    }
  }

  lemma LowerKeepsColon(s: string)
    ensures ':' in ToLower(s) <==> ':' in s
  {
    forall i | 0 <= i < |s|
      ensures ToLower(s)[i] == ':' <==> s[i] == ':'
    {
    }
  }

  /** An error the payload is rejected with. */
  predicate IsPayloadError(e: DecodingError) {
    !e.MixedCase? && !e.NoPrefix? && !e.InvalidPrefix? && !e.InvalidOption?
  }

  lemma BodyErrors(input: string, prefix: string, payload: string, network: Network, expected: Option<AddressType>)
    ensures var r := DecodeBody(input, prefix, payload, network, expected); r.Rejected? ==> IsPayloadError(r.error)
  {
    if payload != [] && ParseSymbols(payload).Parsed? {
      ParsedAreSymbols(payload);
      LateErrors(input, prefix, ParseSymbols(payload).symbols, network, expected);
    }
  }

  lemma CheckedPayloadErrors(input: string, payload: seq<nat>, network: Network, expected: Option<AddressType>)
    ensures var r := CheckPayload(input, payload, network, expected);
            r.Rejected? ==> IsPayloadError(r.error) && !r.error.InvalidChar? && !r.error.ChecksumFailed?
  {
  }

  lemma LateErrors(input: string, prefix: string, symbols: seq<nat>, network: Network, expected: Option<AddressType>)
    requires Symbols(symbols, 5)
    ensures var r := CheckSymbols(input, prefix, symbols, network, expected);
            && (r.Rejected? ==> IsPayloadError(r.error) && !r.error.InvalidChar?)
            && (r.Rejected? && r.error.ChecksumFailed? <==> Polymod(ExpandPrefix(prefix) + symbols) != Zeros(40))
  {
    if Polymod(ExpandPrefix(prefix) + symbols) == Zeros(40) && |symbols| >= 8 {
      var r := Regroup(symbols[..|symbols| - 8], 5, 8, false);
      if r.Regrouped? {
        CheckedPayloadErrors(input, r.symbols, network, expected);
      }
    }
  }

  lemma PartsErrors(input: string, parts: seq<string>)
    ensures DecodeParts(input, parts) == Rejected(NoPrefix) <==> |parts| < 2
    ensures |parts| >= 2 && FromPrefix(parts[0]).None? ==>
              DecodeParts(input, parts) == Rejected(InvalidPrefix(parts[0]))
    ensures |parts| >= 2 && FromPrefix(parts[0]).Some? && ParseOptions(parts[1..|parts| - 1]).BadOption? ==>
              DecodeParts(input, parts) == Rejected(InvalidOption(ParseOptions(parts[1..|parts| - 1]).option))
    ensures |parts| >= 2 && FromPrefix(parts[0]).Some? && ParseOptions(parts[1..|parts| - 1]).Options? ==>
              DecodeParts(input, parts).Rejected? ==> IsPayloadError(DecodeParts(input, parts).error)
  {
    if |parts| >= 2 && FromPrefix(parts[0]).Some? && ParseOptions(parts[1..|parts| - 1]).Options? {
      BodyErrors(input, parts[0], parts[|parts| - 1], FromPrefix(parts[0]).value,
                 ParseOptions(parts[1..|parts| - 1]).addressType);
    }
  }

  /** Which texts are rejected before the payload is looked at, and with which error. */
  lemma HeadErrors(addr: string)
    requires IsAscii(addr)
    ensures Decode(addr) == Rejected(MixedCase) <==> MixedCased(addr)
    ensures Decode(addr) == Rejected(NoPrefix) <==> !MixedCased(addr) && ':' !in addr
    ensures !MixedCased(addr) && ':' in addr ==> |Parts(addr)| >= 2
    ensures Decode(addr).Rejected? && !IsPayloadError(Decode(addr).error) && !MixedCased(addr) && ':' in addr ==>
              if FromPrefix(Parts(addr)[0]).None? then Decode(addr) == Rejected(InvalidPrefix(Parts(addr)[0]))
              else
                var options := ParseOptions(Parts(addr)[1..|Parts(addr)| - 1]);
                options.BadOption? && Decode(addr) == Rejected(InvalidOption(options.option))
    ensures Decode(addr).Rejected? && IsPayloadError(Decode(addr).error) ==> HeadAccepted(addr)
  {
    OnePiece(ToLower(addr), ':');
    LowerKeepsColon(addr);
    PartsErrors(addr, Parts(addr));
  }

  /** The first character that is not a payload character. */
  ghost predicate FirstStranger(s: string, i: nat) {
    i < |s| && CharIndex(s[i]).None? && forall j | 0 <= j < i :: CharIndex(s[j]).Some?
  }

  lemma {:induction false} ParseFails(s: string)
    ensures ParseSymbols(s).BadChar? ==> exists i: nat :: FirstStranger(s, i) && s[i] == ParseSymbols(s).c
    ensures ParseSymbols(s).Parsed? <==> forall i | 0 <= i < |s| :: CharIndex(s[i]).Some?
  {
    if s != [] {
      ParseFails(s[1..]);
      assert forall i | 0 <= i < |s| - 1 :: s[1..][i] == s[i + 1];
      if CharIndex(s[0]).None? {
        assert FirstStranger(s, 0);
      } else if ParseSymbols(s).BadChar? {
        var i: nat :| FirstStranger(s[1..], i) && s[1..][i] == ParseSymbols(s[1..]).c;
        assert FirstStranger(s, i + 1);
      } else {
        forall i | 0 <= i < |s|
          ensures CharIndex(s[i]).Some?
        {
          assert i > 0 ==> s[i] == s[1..][i - 1];
        }
      }
    }
  }

  /** Which payloads are rejected for a character or for their checksum. */
  lemma PayloadErrors(addr: string)
    requires IsAscii(addr) && HeadAccepted(addr)
    ensures Decode(addr).Rejected? && Decode(addr).error.InvalidChar? <==> ParseSymbols(Payload(addr)).BadChar?
    ensures Decode(addr).Rejected? && Decode(addr).error.InvalidChar? ==>
              exists i: nat :: FirstStranger(Payload(addr), i) && Payload(addr)[i] == Decode(addr).error.c
    ensures Decode(addr).Rejected? && Decode(addr).error.ChecksumFailed? <==>
            && Payload(addr) != [] && ParseSymbols(Payload(addr)).Parsed?
            && Symbols(ParseSymbols(Payload(addr)).symbols, 5)
            && Polymod(ExpandPrefix(Parts(addr)[0]) + ParseSymbols(Payload(addr)).symbols) != Zeros(40)
  {
    ParseFails(Payload(addr));
    ParsedAreSymbols(Payload(addr));
    if ParseSymbols(Payload(addr)).Parsed? && Payload(addr) != [] {
      LateErrors(addr, Parts(addr)[0], ParseSymbols(Payload(addr)).symbols, FromPrefix(Parts(addr)[0]).value,
                 ParseOptions(Parts(addr)[1..|Parts(addr)| - 1]).addressType);
    }
  }

  /** The number of bytes that the low three bits of a version byte stand for. */
  function BytesOf(version: nat): nat {
    (20 + 4 * (version % 4)) * (1 + version % 8 / 4)
  }

  lemma VersionedPayload(input: string, raw: seq<nat>, version: nat, network: Network, payload: seq<nat>)
    requires payload == [version] + raw
    ensures CheckPayload(input, payload, network, None) ==
            if |raw| != BytesOf(version) then Rejected(BodyLength(|raw|))
            else if version >= 8 then Rejected(VersionNotRecognized(version))
            else Decoded(input, raw, if version == 0 then Some(raw) else None, network)
  {
    assert payload[1..] == raw;
    assert version % 8 % 4 == version % 4;
    VersionLengths(|raw|, version % 8);
  }

  /**
   Any version byte and any bytes, with their checksum: rejected for the length when it is not the
   one the version stands for, rejected for the version when it is beyond seven, and read otherwise.
   */
  lemma VersionDecides(raw: seq<nat>, version: nat, network: Network, prefix: string)
    requires Symbols(raw, 8) && version < 256 && ValidNetwork(network) && ToPrefix(network) == Some(prefix)
    ensures var addr := prefix + ":" + PrintBody(prefix, PayloadSymbols(version, raw));
            && IsAscii(addr)
            && Decode(addr) ==
               if |raw| != BytesOf(version) then Rejected(BodyLength(|raw|))
               else if version >= 8 then Rejected(VersionNotRecognized(version))
               else Decoded(addr, raw, if version == 0 then Some(raw) else None, network)
  {
    var symbols := PayloadSymbols(version, raw);
    var body := PrintBody(prefix, symbols);
    var addr := prefix + ":" + body;
    assert Plain(body) by {
      BodyParses(prefix, symbols);
    }
    PrefixChars(network);
    SimpleText(prefix, body);
    FromPrinted(network);
    assert [prefix, body][1..1] == [];
    PrintedBody(addr, prefix, symbols, network, None);
    BodyDecodes(addr, prefix, version, raw, network, None);
    VersionedPayload(addr, raw, version, network, [version] + raw);
  }
}
