/** `mazze_addr_encode` and `mazze_addr_decode`, and the two round trips between them. */
module AddressCodec {
  import opened Powers
  import opened BitStrings
  import opened ConvertBits
  import opened Checksum
  import opened Text
  import opened Address
  import opened AddressOptions
  import opened Wrappers

  // ---------------------------------------------------------------------------------------
  // Encoding
  // ---------------------------------------------------------------------------------------

  datatype EncodingOptions = Simple | QrCode

  datatype EncodeResult = Encoded(text: string) | InvalidLength(length: nat) | InvalidNetworkId(id: nat)

  /** The version byte of a body length, for the eight allowed lengths. */
  function VersionByte(length: nat): (v: Option<nat>)
    ensures v.Some? ==> length >= 20 && v.value < 8
  {
    if length == 20 then Some(0)
    else if length == 24 then Some(1)
    else if length == 28 then Some(2)
    else if length == 32 then Some(3)
    else if length == 40 then Some(4)
    else if length == 48 then Some(5)
    else if length == 56 then Some(6)
    else if length == 64 then Some(7)
    else None
  }

  /** The prefix as it enters the checksum: the low five bits of each character, then a zero. */
  function ExpandPrefix(prefix: string): (v: seq<nat>)
    ensures |v| == |prefix| + 1 && Symbols(v, 5)
  {
    assert Pow2(5) == 32;
    seq(|prefix|, i requires 0 <= i < |prefix| => prefix[i] as int % 32) + [0]
  }

  /** The symbols of the version byte and the body. */
  function PayloadSymbols(version: nat, raw: seq<nat>): (v: seq<nat>)
    requires version < 256 && Symbols(raw, 8)
    ensures Symbols(v, 5)
  {
    PayloadIsBytes(version, raw);
    PaddedAreSymbols([version] + raw, 8, 5);
    Regroup([version] + raw, 8, 5, true).symbols
  }

  lemma PayloadIsBytes(version: nat, raw: seq<nat>)
    requires version < 256 && Symbols(raw, 8)
    ensures Symbols([version] + raw, 8)
  {
    assert Pow2(8) == 256;
  }

  /** The eight checksum symbols of a prefix and payload symbols. */
  function ChecksumOf(prefix: string, symbols: seq<nat>): (t: seq<nat>)
    requires Symbols(symbols, 5)
    ensures |t| == 8 && Symbols(t, 5)
  {
    ChecksumSymbols(Polymod(ExpandPrefix(prefix) + symbols + EightZeros()))
  }

  /** The payload and checksum characters. */
  function PrintBody(prefix: string, symbols: seq<nat>): string
    requires Symbols(symbols, 5)
  {
    PrintSymbols(symbols) + PrintSymbols(ChecksumOf(prefix, symbols))
  }

  function Encode(raw: seq<nat>, network: Network, options: EncodingOptions): EncodeResult
    requires Symbols(raw, 8)
  {
    match VersionByte(|raw|)
    case None => InvalidLength(|raw|)
    case Some(version) =>
      match ToPrefix(network)
      case None => InvalidNetworkId(network.id)
      case Some(prefix) =>
        var body := PrintBody(prefix, PayloadSymbols(version, raw));
        match options
        case Simple => Encoded(prefix + ":" + body)
        case QrCode => Encoded(ToUpper(prefix + ":type." + TypeName(TypeOf(raw)) + ":" + body))
  }

  // ---------------------------------------------------------------------------------------
  // Decoding
  // ---------------------------------------------------------------------------------------

  datatype DecodingError =
    | BodyLength(length: nat)
    | NoPrefix
    | InvalidPrefix(prefix: string)
    | InvalidOption(option: string)
    | TypeMismatch(expected: AddressType, got: AddressType)
    | ChecksumFailed(checksum: nat)
    | InvalidChar(c: char)
    | BadPadding(fromBits: nat, paddingBits: nat, padding: nat)
    | VersionNotRecognized(version: nat)
    | MixedCase

  /** `Panics` marks inputs on which an index or a subtraction is out of range. */
  datatype DecodeResult =
    | Decoded(input: string, bytes: seq<nat>, hexAddress: Option<seq<nat>>, network: Network)
    | Rejected(error: DecodingError)
    | Panics

  /** The checks on the regrouped payload. */
  function CheckPayload(input: string, payload: seq<nat>, network: Network, expected: Option<AddressType>): DecodeResult
  {
    if payload == [] then Panics
    else
      var version, body := payload[0], payload[1..];
      if VersionByte(|body|) != Some(version % 8) then Rejected(BodyLength(|body|))
      else if version >= 8 then Rejected(VersionNotRecognized(version))
      else if version != 0 then Decoded(input, body, None, network)
      else
        var got := TypeOf(body);
        if expected.Some? && expected.value != got then Rejected(TypeMismatch(expected.value, got))
        else Decoded(input, body, Some(body), network)
  }

  /** The checksum and the regrouping, once the text is parsed into symbols. */
  function CheckSymbols(input: string, prefix: string, symbols: seq<nat>, network: Network,
                        expected: Option<AddressType>): DecodeResult
    requires Symbols(symbols, 5)
  {
    var checksum := Polymod(ExpandPrefix(prefix) + symbols);
    if checksum != Zeros(40) then Rejected(ChecksumFailed(FromBits(checksum)))
    else if |symbols| < 8 then Panics
    else
      match Regroup(symbols[..|symbols| - 8], 5, 8, false)
      case InvalidPadding(f, n, p) => Rejected(BadPadding(f, n, p))
      case Regrouped(payload) => CheckPayload(input, payload, network, expected)
  }

  /** The payload, once the prefix and the options are known. */
  function DecodeBody(input: string, prefix: string, payload: string, network: Network,
                      expected: Option<AddressType>): DecodeResult
  {
    if payload == [] then Rejected(BodyLength(0))
    else
      match ParseSymbols(payload)
      case BadChar(c) => Rejected(InvalidChar(c))
      case Parsed(symbols) =>
        ParsedAreSymbols(payload);
        CheckSymbols(input, prefix, symbols, network, expected)
  }

  /** Everything after the text is lower-cased and split at its colons. */
  function DecodeParts(input: string, parts: seq<string>): DecodeResult {
    if |parts| < 2 then Rejected(NoPrefix)
    else
      match FromPrefix(parts[0])
      case None => Rejected(InvalidPrefix(parts[0]))
      case Some(network) =>
        match ParseOptions(parts[1..|parts| - 1])
        case BadOption(option) => Rejected(InvalidOption(option))
        case Options(expected) => DecodeBody(input, parts[0], parts[|parts| - 1], network, expected)
  }

  function Decode(addr: string): DecodeResult
    requires IsAscii(addr)
  {
    if HasLower(addr) && HasUpper(addr) then Rejected(MixedCase)
    else DecodeParts(addr, Split(ToLower(addr), ':'))
  }

  // ---------------------------------------------------------------------------------------
  // Decoding undoes encoding
  // ---------------------------------------------------------------------------------------

  /** Lower-case letters and digits only. */
  predicate Plain(s: string) {
    forall i | 0 <= i < |s| :: IsLower(s[i]) || IsDigit(s[i])
  }

  lemma PrintAppend(a: seq<nat>, b: seq<nat>)
    requires Symbols(a, 5) && Symbols(b, 5)
    ensures Symbols(a + b, 5) && PrintSymbols(a + b) == PrintSymbols(a) + PrintSymbols(b)
  {
  }

  lemma PrintIsPlain(v: seq<nat>)
    requires Symbols(v, 5)
    ensures Plain(PrintSymbols(v))
  {
  }

  lemma BodyParses(prefix: string, symbols: seq<nat>)
    requires Symbols(symbols, 5)
    ensures var all := symbols + ChecksumOf(prefix, symbols);
            && Symbols(all, 5) && ParseSymbols(PrintBody(prefix, symbols)) == Parsed(all)
    ensures Plain(PrintBody(prefix, symbols)) && |PrintBody(prefix, symbols)| >= 8
  {
    var t := ChecksumOf(prefix, symbols);
    PrintAppend(symbols, t);
    PrintIsPlain(symbols + t);
    ParsePrintedSymbols(symbols + t);
  }

  lemma CheckedSymbols(input: string, prefix: string, symbols: seq<nat>, t: seq<nat>, payload: seq<nat>,
                       network: Network, expected: Option<AddressType>)
    requires Symbols(symbols, 5) && Symbols(t, 5) && |t| == 8 && Symbols(symbols + t, 5)
    requires Polymod(ExpandPrefix(prefix) + (symbols + t)) == Zeros(40)
    requires Regroup(symbols, 5, 8, false) == Regrouped(payload)
    ensures CheckSymbols(input, prefix, symbols + t, network, expected)
         == CheckPayload(input, payload, network, expected)
  {
    assert (symbols + t)[..|symbols + t| - 8] == symbols;
  }

  lemma ChecksumChecks(prefix: string, symbols: seq<nat>)
    requires Symbols(symbols, 5)
    ensures var all := symbols + ChecksumOf(prefix, symbols);
            Symbols(all, 5) && Polymod(ExpandPrefix(prefix) + all) == Zeros(40)
  {
    var t := ChecksumOf(prefix, symbols);
    var head := ExpandPrefix(prefix) + symbols;
    assert head + t == ExpandPrefix(prefix) + (symbols + t);
    ChecksumUnique(head, t);
  }

  lemma BodyDecodes(input: string, prefix: string, version: nat, raw: seq<nat>, network: Network,
                    expected: Option<AddressType>)
    requires Symbols(raw, 8) && version < 256
    ensures var symbols := PayloadSymbols(version, raw);
            var all := symbols + ChecksumOf(prefix, symbols);
            && Symbols(all, 5)
            && CheckSymbols(input, prefix, all, network, expected) ==
               CheckPayload(input, [version] + raw, network, expected)
  {
    var symbols := PayloadSymbols(version, raw);
    ChecksumChecks(prefix, symbols);
    assert Regroup(symbols, 5, 8, false) == Regrouped([version] + raw) by {
      PayloadIsBytes(version, raw);
      RegroupBack([version] + raw, 8, 5);
    }
    CheckedSymbols(input, prefix, symbols, ChecksumOf(prefix, symbols), [version] + raw, network, expected);
  }

  lemma PayloadAccepted(input: string, version: nat, raw: seq<nat>, network: Network, expected: Option<AddressType>)
    requires VersionByte(|raw|) == Some(version)
    requires |raw| == 20 && expected.Some? ==> expected.value == TypeOf(raw)
    ensures CheckPayload(input, [version] + raw, network, expected) ==
            Decoded(input, raw, if |raw| == 20 then Some(raw) else None, network)
  {
  }

  /** The payload printed for the bytes, when they are of the type expected. */
  ghost predicate IsBody(payload: string, prefix: string, raw: seq<nat>, expected: Option<AddressType>) {
    && Symbols(raw, 8) && VersionByte(|raw|).Some?
    && payload == PrintBody(prefix, PayloadSymbols(VersionByte(|raw|).value, raw))
    && (|raw| == 20 && expected.Some? ==> expected.value == TypeOf(raw))
  }

  lemma PrintedSymbolsDecode(input: string, prefix: string, raw: seq<nat>, version: nat, network: Network,
                             expected: Option<AddressType>)
    requires Symbols(raw, 8) && VersionByte(|raw|) == Some(version)
    requires |raw| == 20 && expected.Some? ==> expected.value == TypeOf(raw)
    ensures var symbols := PayloadSymbols(version, raw);
            var all := symbols + ChecksumOf(prefix, symbols);
            && Symbols(all, 5)
            && CheckSymbols(input, prefix, all, network, expected)
            == Decoded(input, raw, if |raw| == 20 then Some(raw) else None, network)
  {
    PayloadAccepted(input, version, raw, network, expected);
    BodyDecodes(input, prefix, version, raw, network, expected);
  }

  lemma PrintedBodyDecodes(input: string, prefix: string, payload: string, raw: seq<nat>, network: Network,
                           expected: Option<AddressType>)
    requires IsBody(payload, prefix, raw, expected)
    ensures DecodeBody(input, prefix, payload, network, expected)
         == Decoded(input, raw, if |raw| == 20 then Some(raw) else None, network)
  {
    var version := VersionByte(|raw|).value;
    var symbols := PayloadSymbols(version, raw);
    assert payload != [] && ParseSymbols(payload) == Parsed(symbols + ChecksumOf(prefix, symbols)) by {
      BodyParses(prefix, symbols);
    }
    PrintedSymbolsDecode(input, prefix, raw, version, network, expected);
  }

  /** The pieces of a text that stands for the bytes and network, in lower case. */
  ghost predicate Spells(parts: seq<string>, raw: seq<nat>, network: Network) {
    && |parts| >= 2 && FromPrefix(parts[0]) == Some(network)
    && var options := ParseOptions(parts[1..|parts| - 1]);
       options.Options? && IsBody(parts[|parts| - 1], parts[0], raw, options.addressType)
  }

  /** An accepted prefix, good options and a printed body decode. */
  lemma SpelledDecodes(input: string, parts: seq<string>, raw: seq<nat>, network: Network)
    requires Spells(parts, raw, network)
    ensures DecodeParts(input, parts) == Decoded(input, raw, if |raw| == 20 then Some(raw) else None, network)
  {
    PrintedBodyDecodes(input, parts[0], parts[|parts| - 1], raw, network,
                       ParseOptions(parts[1..|parts| - 1]).addressType);
  }

  lemma SpelledPlainly(prefix: string, raw: seq<nat>, network: Network, version: nat)
    requires Symbols(raw, 8) && VersionByte(|raw|) == Some(version)
    requires ValidNetwork(network) && ToPrefix(network) == Some(prefix)
    ensures Spells([prefix, PrintBody(prefix, PayloadSymbols(version, raw))], raw, network)
  {
    FromPrinted(network);
    assert [prefix, PrintBody(prefix, PayloadSymbols(version, raw))][1..1] == [];
  }

  lemma OneOption(prefix: string, option: string, body: string, raw: seq<nat>, network: Network,
                  expected: Option<AddressType>)
    requires FromPrefix(prefix) == Some(network) && ParseOptions([option]) == Options(expected)
    requires IsBody(body, prefix, raw, expected)
    ensures Spells([prefix, option, body], raw, network)
  {
    assert [prefix, option, body][1..2] == [option];
  }

  lemma SpelledWithType(prefix: string, raw: seq<nat>, network: Network, version: nat)
    requires Symbols(raw, 8) && VersionByte(|raw|) == Some(version)
    requires ValidNetwork(network) && ToPrefix(network) == Some(prefix)
    ensures var option := "type." + TypeName(TypeOf(raw));
            Spells([prefix, option, PrintBody(prefix, PayloadSymbols(version, raw))], raw, network)
  {
    var option := "type." + TypeName(TypeOf(raw));
    FromPrinted(network);
    TypeOption(TypeOf(raw));
    OneOption(prefix, option, PrintBody(prefix, PayloadSymbols(version, raw)), raw, network, Some(TypeOf(raw)));
  }

  lemma PlainText(s: string)
    requires Plain(s)
    ensures IsAscii(s) && !HasUpper(s) && ':' !in s && '.' !in s
  {
  }

  lemma SimpleText(prefix: string, body: string)
    requires Plain(prefix) && Plain(body)
    ensures var addr := prefix + ":" + body;
            IsAscii(addr) && !HasUpper(addr) && ToLower(addr) == addr && Split(addr, ':') == [prefix, body]
  {
    var addr := prefix + ":" + body;
    PlainText(prefix);
    PlainText(body);
    assert IsAscii(addr) && !HasUpper(addr);
    LowerOfUpper(addr);
    SplitFirst(prefix, body, ':');
    SplitWhole(body, ':');
  }

  lemma SimpleDecodes(raw: seq<nat>, network: Network, prefix: string, version: nat)
    requires Symbols(raw, 8) && VersionByte(|raw|) == Some(version)
    requires ValidNetwork(network) && ToPrefix(network) == Some(prefix)
    ensures var addr := prefix + ":" + PrintBody(prefix, PayloadSymbols(version, raw));
            && IsAscii(addr) && !HasUpper(addr)
            && Split(addr, ':') == [prefix, PrintBody(prefix, PayloadSymbols(version, raw))]
            && Decode(addr) == Decoded(addr, raw, if |raw| == 20 then Some(raw) else None, network)
  {
    var body := PrintBody(prefix, PayloadSymbols(version, raw));
    PrefixChars(network);
    BodyParses(prefix, PayloadSymbols(version, raw));
    SimpleText(prefix, body);
    SpelledPlainly(prefix, raw, network, version);
    SpelledDecodes(prefix + ":" + body, [prefix, body], raw, network);
  }

  lemma TypeOption(t: AddressType)
    ensures Plain(TypeName(t)) && ParseOptions(["type." + TypeName(t)]) == Options(Some(t))
  {
    var name := TypeName(t);
    PlainText(name);
    OptionPair(name);
    var option := "type." + name;
    assert [option][..0] == [];
    assert ParseOptions([option]) == Options(Some(ParseType(name)));
  }

  lemma OptionPair(name: string)
    requires '.' !in name
    ensures Split("type." + name, '.') == ["type", name]
  {
    assert "type." + name == "type" + ['.'] + name;
    SplitFirst("type", name, '.');
    SplitWhole(name, '.');
  }

  lemma QrDecodes(raw: seq<nat>, network: Network, prefix: string, version: nat)
    requires Symbols(raw, 8) && VersionByte(|raw|) == Some(version)
    requires ValidNetwork(network) && ToPrefix(network) == Some(prefix)
    ensures var addr := ToUpper(prefix + ":type." + TypeName(TypeOf(raw)) + ":" +
                                PrintBody(prefix, PayloadSymbols(version, raw)));
            && IsAscii(addr)
            && Decode(addr) == Decoded(addr, raw, if |raw| == 20 then Some(raw) else None, network)
  {
    var symbols := PayloadSymbols(version, raw);
    var body, t := PrintBody(prefix, symbols), TypeOf(raw);
    var option := "type." + TypeName(t);
    var plain := prefix + ":type." + TypeName(t) + ":" + body;
    PrefixChars(network);
    BodyParses(prefix, symbols);
    TypeOption(t);
    PlainText(prefix);
    PlainText(body);
    PlainText(TypeName(t));
    QrText(prefix, TypeName(t), body);
    LowerOfUpper(plain);
    QrSplit(prefix, option, body);
    SpelledWithType(prefix, raw, network, version);
    SpelledDecodes(ToUpper(plain), [prefix, option, body], raw, network);
  }

  lemma QrSplit(prefix: string, option: string, body: string)
    requires ':' !in prefix && ':' !in option && ':' !in body
    ensures Split(prefix + [':'] + option + [':'] + body, ':') == [prefix, option, body]
  {
    assert prefix + [':'] + option + [':'] + body == prefix + [':'] + (option + [':'] + body);
    SplitFirst(prefix, option + [':'] + body, ':');
    SplitFirst(option, body, ':');
    SplitWhole(body, ':');
  }

  lemma QrText(prefix: string, name: string, body: string)
    requires Plain(prefix) && Plain(name) && Plain(body)
    ensures var plain := prefix + ":type." + name + ":" + body;
            && !HasUpper(plain) && IsAscii(ToUpper(plain))
            && plain == prefix + [':'] + ("type." + name) + [':'] + body
    ensures ':' !in "type." + name
  {
  }

  /**
   Decoding undoes encoding: for the eight body lengths and every network that is not a reserved
   id, the text printed in either form decodes to the same bytes and network.
   */
  lemma DecodeEncoded(raw: seq<nat>, network: Network, options: EncodingOptions)
    requires Symbols(raw, 8) && ValidNetwork(network)
    ensures Encode(raw, network, options).Encoded? <==> VersionByte(|raw|).Some? && ToPrefix(network).Some?
    ensures Encode(raw, network, options).Encoded? ==>
              var text := Encode(raw, network, options).text;
              IsAscii(text) && Decode(text) == Decoded(text, raw, if |raw| == 20 then Some(raw) else None, network)
  {
    if VersionByte(|raw|).Some? && ToPrefix(network).Some? {
      var version, prefix := VersionByte(|raw|).value, ToPrefix(network).value;
      if options == Simple {
        SimpleDecodes(raw, network, prefix, version);
      } else {
        QrDecodes(raw, network, prefix, version);
      }
    }
  }

  // ---------------------------------------------------------------------------------------
  // What is accepted is canonical
  // ---------------------------------------------------------------------------------------

  lemma AcceptedChecksum(prefix: string, v: seq<nat>, t: seq<nat>)
    requires Symbols(v, 5) && Symbols(t, 5) && |t| == 8
    requires Polymod(ExpandPrefix(prefix) + (v + t)) == Zeros(40)
    ensures t == ChecksumOf(prefix, v)
  {
    var head := ExpandPrefix(prefix) + v;
    assert ExpandPrefix(prefix) + (v + t) == head + t;
    ChecksumUnique(head, t);
  }

  lemma AcceptedRegroup(v: seq<nat>, version: nat, raw: seq<nat>)
    requires Symbols(v, 5) && Regroup(v, 5, 8, false) == Regrouped([version] + raw)
    requires version < 8 && Symbols(raw, 8)
    ensures PayloadSymbols(version, raw) == v
  {
    RegroupUnique(v, 5, 8);
  }

  /** An accepted symbol sequence is the payload and checksum printed for the bytes it decodes to. */
  lemma AcceptedSymbols(input: string, prefix: string, symbols: seq<nat>, network: Network,
                        expected: Option<AddressType>)
    requires Symbols(symbols, 5) && CheckSymbols(input, prefix, symbols, network, expected).Decoded?
    ensures var raw := CheckSymbols(input, prefix, symbols, network, expected).bytes;
            && Symbols(raw, 8) && VersionByte(|raw|).Some?
            && var v := PayloadSymbols(VersionByte(|raw|).value, raw);
               symbols == v + ChecksumOf(prefix, v)
  {
    var n: nat := |symbols| - 8;
    var v, t := symbols[..n], symbols[n..];
    assert symbols == v + t;
    AcceptedChecksum(prefix, v, t);
    var payload := Regroup(v, 5, 8, false).symbols;
    assert Symbols(payload, 8) by {
      RegroupUnique(v, 5, 8);
    }
    AcceptedPayload(input, payload, network, expected);
    AcceptedRegroup(v, payload[0], payload[1..]);
  }

  lemma AcceptedPayload(input: string, payload: seq<nat>, network: Network, expected: Option<AddressType>)
    requires Symbols(payload, 8) && CheckPayload(input, payload, network, expected).Decoded?
    ensures var raw := CheckPayload(input, payload, network, expected).bytes;
            && Symbols(raw, 8) && VersionByte(|raw|).Some? && payload == [VersionByte(|raw|).value] + raw
  {
  }

  lemma AcceptedNetwork(prefix: string)
    requires FromPrefix(prefix).Some?
    ensures ValidNetwork(FromPrefix(prefix).value)
  {
  }

  lemma PayloadResult(input: string, payload: seq<nat>, network: Network, expected: Option<AddressType>)
    requires CheckPayload(input, payload, network, expected).Decoded?
    ensures var r := CheckPayload(input, payload, network, expected);
            && r == Decoded(input, r.bytes, if |r.bytes| == 20 then Some(r.bytes) else None, network)
            && (|r.bytes| == 20 && expected.Some? ==> expected.value == TypeOf(r.bytes))
  {
  }

  lemma AcceptedType(input: string, prefix: string, symbols: seq<nat>, network: Network, expected: Option<AddressType>)
    requires Symbols(symbols, 5) && CheckSymbols(input, prefix, symbols, network, expected).Decoded?
    ensures var r := CheckSymbols(input, prefix, symbols, network, expected);
            && r == Decoded(input, r.bytes, if |r.bytes| == 20 then Some(r.bytes) else None, network)
            && (|r.bytes| == 20 && expected.Some? ==> expected.value == TypeOf(r.bytes))
  {
    PayloadResult(input, Regroup(symbols[..|symbols| - 8], 5, 8, false).symbols, network, expected);
  }

  /** An accepted payload is the one printed for the bytes it decodes to. */
  lemma AcceptedBody(input: string, prefix: string, payload: string, network: Network, expected: Option<AddressType>)
    requires ToLower(payload) == payload && DecodeBody(input, prefix, payload, network, expected).Decoded?
    ensures var r := DecodeBody(input, prefix, payload, network, expected);
            && r == Decoded(input, r.bytes, if |r.bytes| == 20 then Some(r.bytes) else None, network)
            && IsBody(payload, prefix, r.bytes, expected)
  {
    ParsedAreSymbols(payload);
    var symbols := ParseSymbols(payload).symbols;
    AcceptedSymbols(input, prefix, symbols, network, expected);
    AcceptedType(input, prefix, symbols, network, expected);
    PrintParsedSymbols(payload);
    var raw := DecodeBody(input, prefix, payload, network, expected).bytes;
    var v := PayloadSymbols(VersionByte(|raw|).value, raw);
    PrintAppend(v, ChecksumOf(prefix, v));
  }

  lemma DecodedSpells(input: string, parts: seq<string>)
    requires DecodeParts(input, parts).Decoded? && ToLower(parts[|parts| - 1]) == parts[|parts| - 1]
    ensures var r := DecodeParts(input, parts); Spells(parts, r.bytes, r.network)
  {
    AcceptedBody(input, parts[0], parts[|parts| - 1], FromPrefix(parts[0]).value,
                 ParseOptions(parts[1..|parts| - 1]).addressType);
  }

  /** A prefix that is printed for the network it is read as. */
  predicate IsPrintedPrefix(prefix: string) {
    FromPrefix(prefix).Some? && ToPrefix(FromPrefix(prefix).value) == Some(prefix)
  }

  /** `prefix:payload` in lower case, with a prefix that is printed. */
  predicate IsCanonical(addr: string) {
    var parts := Split(addr, ':');
    !HasUpper(addr) && |parts| == 2 && IsPrintedPrefix(parts[0])
  }

  /**
   Decoding is canonical: an accepted text is what `Simple` encoding prints for the bytes and
   network it decodes to exactly when it is in canonical form. So no payload but one stands for
   given bytes and network.
   */
  lemma EncodeDecoded(addr: string)
    requires IsAscii(addr) && Decode(addr).Decoded?
    ensures var r := Decode(addr);
            && Symbols(r.bytes, 8) && ValidNetwork(r.network)
            && (Encode(r.bytes, r.network, Simple) == Encoded(addr) <==> IsCanonical(addr))
  {
    var r := Decode(addr);
    var lower := Split(ToLower(addr), ':');
    SplitKeepsLower(ToLower(addr), ':', |lower| - 1);
    DecodedSpells(addr, lower);
    AcceptedNetwork(lower[0]);
    if Encode(r.bytes, r.network, Simple) == Encoded(addr) {
      SimpleDecodes(r.bytes, r.network, ToPrefix(r.network).value, VersionByte(|r.bytes|).value);
      FromPrinted(r.network);
    }
    if IsCanonical(addr) {
      LowerOfUpper(addr);
      SplitInTwo(addr, ':');
    }
  }

  lemma PartsDecodeIff(input: string, parts: seq<string>, raw: seq<nat>, network: Network)
    requires parts != [] && ToLower(parts[|parts| - 1]) == parts[|parts| - 1]
    ensures DecodeParts(input, parts) == Decoded(input, raw, if |raw| == 20 then Some(raw) else None, network)
       <==> Spells(parts, raw, network)
  {
    if Spells(parts, raw, network) {
      SpelledDecodes(input, parts, raw, network);
    } else if DecodeParts(input, parts).Decoded? {
      DecodedSpells(input, parts);
    }
  }

  /** Exactly which texts are accepted, and what each decodes to. */
  lemma DecodesIff(addr: string, raw: seq<nat>, network: Network)
    requires IsAscii(addr)
    ensures Decode(addr) == Decoded(addr, raw, if |raw| == 20 then Some(raw) else None, network)
       <==> !(HasLower(addr) && HasUpper(addr)) && Spells(Split(ToLower(addr), ':'), raw, network)
  {
    var parts := Split(ToLower(addr), ':');
    SplitKeepsLower(ToLower(addr), ':', |parts| - 1);
    PartsDecodeIff(addr, parts, raw, network);
  }
}
