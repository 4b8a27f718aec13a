/** Where decoding fails: typing errors, texts that are not canonical, and texts that stop the program. */
module AddressLimits {
  import opened Powers
  import opened BitStrings
  import opened ConvertBits
  import opened Checksum
  import opened Text
  import opened Address
  import opened AddressOptions
  import opened AddressCodec
  import opened Wrappers

  // ---------------------------------------------------------------------------------------
  // Typing errors
  // ---------------------------------------------------------------------------------------

  lemma BurstAfter(head: seq<nat>, a: seq<nat>, x: seq<nat>, x': seq<nat>, b: seq<nat>)
    requires Symbols(head, 5) && Symbols(a, 5) && Symbols(x, 5) && Symbols(x', 5) && Symbols(b, 5)
    requires |x| == |x'| <= 8 && x != x'
    ensures Polymod(head + (a + x + b)) != Polymod(head + (a + x' + b))
  {
    assert head + (a + x + b) == (head + a) + x + b;
    assert head + (a + x' + b) == (head + a) + x' + b;
    BurstChangesChecksum(head + a, x, x', b);
  }

  /** The two agree except inside the eight places from `k` on. */
  ghost predicate DifferInWindow<T>(s: seq<T>, s': seq<T>, k: nat) {
    && |s| == |s'| && s != s'
    && forall i | 0 <= i < |s| && !(k <= i < k + 8) :: s[i] == s'[i]
  }

  lemma WindowParts<T>(s: seq<T>, s': seq<T>, start: nat, end: nat)
    requires |s| == |s'| && s != s' && start <= end <= |s|
    requires forall i | 0 <= i < |s| && !(start <= i < end) :: s[i] == s'[i]
    ensures s == s[..start] + s[start..end] + s[end..]
    ensures s' == s[..start] + s'[start..end] + s[end..]
    ensures s[start..end] != s'[start..end]
  {
  }

  lemma WindowChangesChecksum(head: seq<nat>, v: seq<nat>, v': seq<nat>, k: nat)
    requires Symbols(head, 5) && Symbols(v, 5) && Symbols(v', 5) && DifferInWindow(v, v', k)
    ensures Polymod(head + v) != Polymod(head + v')
  {
    var start, end := if k <= |v| then k else |v|, if k + 8 <= |v| then k + 8 else |v|;
    WindowParts(v, v', start, end);
    BurstAfter(head, v[..start], v[start..end], v'[start..end], v[end..]);
  }

  /** The symbols of two lower-case texts differ where the texts do. */
  lemma ParsedDiffer(p: string, p': string, k: nat)
    requires ParseSymbols(p).Parsed? && ParseSymbols(p').Parsed?
    requires ToLower(p) == p && ToLower(p') == p' && DifferInWindow(p, p', k)
    ensures Symbols(ParseSymbols(p).symbols, 5) && Symbols(ParseSymbols(p').symbols, 5)
    ensures DifferInWindow(ParseSymbols(p).symbols, ParseSymbols(p').symbols, k)
  {
    var v, v' := ParseSymbols(p).symbols, ParseSymbols(p').symbols;
    PrintParsedSymbols(p);
    PrintParsedSymbols(p');
    forall i | 0 <= i < |v| && !(k <= i < k + 8)
      ensures v[i] == v'[i]
    {
      CharIndexOfSymbol(v[i]);
      CharIndexOfSymbol(v'[i]);
      assert PrintSymbols(v)[i] == p[i] && PrintSymbols(v')[i] == p'[i];
    }
  }

  /** The pieces of a text in lower case. */
  function Parts(addr: string): (parts: seq<string>)
    ensures |parts| >= 1
  {
    Split(ToLower(addr), ':')
  }

  function Payload(addr: string): string {
    Parts(addr)[|Parts(addr)| - 1]
  }

  lemma PayloadIsLower(addr: string)
    ensures ToLower(Payload(addr)) == Payload(addr)
  {
    SplitKeepsLower(ToLower(addr), ':', |Parts(addr)| - 1);
  }

  predicate MixedCased(addr: string) {
    HasLower(addr) && HasUpper(addr)
  }

  lemma BodyTyposRejected(input: string, input': string, prefix: string, p: string, p': string, k: nat,
                          network: Network, expected: Option<AddressType>)
    requires ToLower(p) == p && ToLower(p') == p' && DifferInWindow(p, p', k) && ParseSymbols(p').Parsed?
    requires DecodeBody(input, prefix, p, network, expected).Decoded?
    ensures var r := DecodeBody(input', prefix, p', network, expected); r.Rejected? && r.error.ChecksumFailed?
  {
    ParsedDiffer(p, p', k);
    WindowChangesChecksum(ExpandPrefix(prefix), ParseSymbols(p).symbols, ParseSymbols(p').symbols, k);
  }

  /**
   A text that decodes, changed inside eight consecutive characters of its payload to other payload
   characters, fails its checksum. Letter case does not matter.
   */
  lemma TyposRejected(addr: string, addr': string, k: nat)
    requires IsAscii(addr) && IsAscii(addr') && Decode(addr).Decoded? && !MixedCased(addr')
    requires Parts(addr')[..|Parts(addr')| - 1] == Parts(addr)[..|Parts(addr)| - 1]
    requires DifferInWindow(Payload(addr), Payload(addr'), k) && ParseSymbols(Payload(addr')).Parsed?
    ensures Decode(addr').Rejected? && Decode(addr').error.ChecksumFailed?
  {
    var parts, parts' := Parts(addr), Parts(addr');
    PayloadIsLower(addr);
    PayloadIsLower(addr');
    assert |parts'| == |parts| && parts'[0] == parts[..|parts| - 1][0] == parts[0];
    assert parts'[1..|parts| - 1] == parts'[..|parts| - 1][1..] == parts[1..|parts| - 1];
    BodyTyposRejected(addr, addr', parts[0], Payload(addr), Payload(addr'), k, FromPrefix(parts[0]).value,
                      ParseOptions(parts[1..|parts| - 1]).addressType);
  }

  // ---------------------------------------------------------------------------------------
  // Out of range
  // ---------------------------------------------------------------------------------------

  /** Only the empty symbol sequence regroups to no bytes. */
  lemma RegroupedEmpty(v: seq<nat>)
    requires Symbols(v, 5)
    ensures Regroup(v, 5, 8, false) == Regrouped([]) <==> v == []
  {
  }

  lemma SymbolsPanicIff(input: string, prefix: string, symbols: seq<nat>, network: Network,
                        expected: Option<AddressType>)
    requires Symbols(symbols, 5)
    ensures CheckSymbols(input, prefix, symbols, network, expected) == Panics <==>
            |symbols| <= 8 && Polymod(ExpandPrefix(prefix) + symbols) == Zeros(40)
  {
    if |symbols| >= 8 {
      RegroupedEmpty(symbols[..|symbols| - 8]);
    }
  }

  /** At most eight payload characters with a good checksum: too few for a checksum and a version. */
  predicate IsShort(prefix: string, payload: string) {
    && 0 < |payload| <= 8 && ParseSymbols(payload).Parsed?
    && (ParsedAreSymbols(payload);
        Polymod(ExpandPrefix(prefix) + ParseSymbols(payload).symbols) == Zeros(40))
  }

  lemma BodyPanicsIff(input: string, prefix: string, payload: string, network: Network, expected: Option<AddressType>)
    ensures DecodeBody(input, prefix, payload, network, expected) == Panics <==> IsShort(prefix, payload)
  {
    if payload != [] && ParseSymbols(payload).Parsed? {
      ParsedAreSymbols(payload);
      SymbolsPanicIff(input, prefix, ParseSymbols(payload).symbols, network, expected);
    }
  }

  /** Exactly which texts send decoding out of range. */
  lemma PanicsIff(addr: string)
    requires IsAscii(addr)
    ensures Decode(addr) == Panics <==>
            && !MixedCased(addr) && |Parts(addr)| >= 2 && FromPrefix(Parts(addr)[0]).Some?
            && ParseOptions(Parts(addr)[1..|Parts(addr)| - 1]).Options?
            && IsShort(Parts(addr)[0], Payload(addr))
  {
    var parts := Parts(addr);
    if |parts| >= 2 && FromPrefix(parts[0]).Some? && ParseOptions(parts[1..|parts| - 1]).Options? {
      BodyPanicsIff(addr, parts[0], Payload(addr), FromPrefix(parts[0]).value,
                    ParseOptions(parts[1..|parts| - 1]).addressType);
    }
  }

  lemma ChecksumAloneIsShort(prefix: string)
    ensures IsShort(prefix, PrintBody(prefix, []))
  {
    var t := ChecksumOf(prefix, []);
    BodyParses(prefix, []);
    assert [] + t == t && PrintSymbols([]) == [];
    assert ExpandPrefix(prefix) + [] == ExpandPrefix(prefix);
    ChecksumUnique(ExpandPrefix(prefix), t);
  }

  lemma ShortPanics(prefix: string, body: string)
    requires Plain(prefix) && Plain(body) && FromPrefix(prefix).Some? && IsShort(prefix, body)
    ensures var addr := prefix + ":" + body; IsAscii(addr) && Decode(addr) == Panics
  {
    SimpleText(prefix, body);
    assert [prefix, body][1..1] == [];
    PanicsIff(prefix + ":" + body);
  }

  /** Every network has such a text: its prefix with the checksum of nothing. */
  lemma ChecksumAlonePanics(network: Network, prefix: string)
    requires ValidNetwork(network) && ToPrefix(network) == Some(prefix)
    ensures var addr := prefix + ":" + PrintBody(prefix, []); IsAscii(addr) && Decode(addr) == Panics
  {
    PrefixChars(network);
    FromPrinted(network);
    BodyParses(prefix, []);
    ChecksumAloneIsShort(prefix);
    ShortPanics(prefix, PrintBody(prefix, []));
  }

  // ---------------------------------------------------------------------------------------
  // Not canonical
  // ---------------------------------------------------------------------------------------

  lemma LeadingZero()
    ensures FromPrefix("net05") == Some(Id(5)) && ToPrefix(Id(5)) == Some("net5") && Plain("net05")
  {
    var digits := "05";
    assert "net05"[3..] == digits;
    assert digits[..1] == "0" && digits[..1][..0] == [];
    assert Value("0") == 0 && Value(digits) == 5;
    assert Print(5) == "5";
    assert "net" + "5" == "net5";
  }

  /** Bytes of any allowed size have a text that decodes to them and is never printed for them. */
  lemma LeadingZeroAccepted(raw: seq<nat>, version: nat)
    requires Symbols(raw, 8) && VersionByte(|raw|) == Some(version)
    ensures var addr := "net05" + ":" + PrintBody("net05", PayloadSymbols(version, raw));
            && IsAscii(addr)
            && Decode(addr) == Decoded(addr, raw, if |raw| == 20 then Some(raw) else None, Id(5))
            && Encode(raw, Id(5), Simple) != Encoded(addr)
  {
    var body := PrintBody("net05", PayloadSymbols(version, raw));
    LeadingZero();
    BodyParses("net05", PayloadSymbols(version, raw));
    SimpleText("net05", body);
    assert ["net05", body][1..1] == [];
    SpelledDecodes("net05" + ":" + body, ["net05", body], raw, Id(5));
    EncodeDecoded("net05" + ":" + body);
  }
}
