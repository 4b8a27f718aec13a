/**
 Base32 addresses: `network-prefix [:key.value]* : payload checksum`, printed from and parsed to
 raw address bytes and a network.
 */
module Address {
  import opened Powers
  import opened BitStrings
  import opened ConvertBits
  import opened Checksum
  import opened Text
  import opened Wrappers

  // ---------------------------------------------------------------------------------------
  // Symbols and characters
  // ---------------------------------------------------------------------------------------

  /** Lower-case letters and digits without o, i, l and q. */
  const CHARSET: string := "abcdefghjkmnprstuvwxyz0123456789"

  /** The character a 5-bit symbol is printed as: the charset by its runs of consecutive characters. */
  function SymbolChar(d: nat): (c: char)
    requires d < 32
    ensures IsLower(c) || IsDigit(c)
  {
    if d < 8 then (d + 'a' as int) as char
    else if d < 10 then (d - 8 + 'j' as int) as char
    else if d < 12 then (d - 10 + 'm' as int) as char
    else if d == 12 then 'p'
    else if d < 22 then (d - 13 + 'r' as int) as char
    else (d - 22 + '0' as int) as char
  }

  lemma SymbolCharIsCharset(d: nat)
    requires d < 32
    ensures SymbolChar(d) == CHARSET[d]
  {
  }

  /** The symbol a character stands for, in either case. */
  function CharIndex(c: char): (r: Option<nat>)
    ensures r.Some? ==> r.value < 32 && SymbolChar(r.value) == LowerChar(c)
    ensures r.None? ==> forall d: nat | d < 32 :: SymbolChar(d) != LowerChar(c)
  {
    var l := LowerChar(c);
    if 'a' <= l <= 'h' then Some(l as int - 'a' as int)
    else if 'j' <= l <= 'k' then Some(l as int - 'j' as int + 8)
    else if 'm' <= l <= 'n' then Some(l as int - 'm' as int + 10)
    else if l == 'p' then Some(12)
    else if 'r' <= l <= 'z' then Some(l as int - 'r' as int + 13)
    else if '0' <= l <= '9' then Some(l as int - '0' as int + 22)
    else None
  }

  lemma CharIndexOfSymbol(d: nat)
    requires d < 32
    ensures CharIndex(SymbolChar(d)) == Some(d)
  {
  }

  /** The characters of a symbol sequence. */
  function PrintSymbols(v: seq<nat>): (s: string)
    requires Symbols(v, 5)
    ensures |s| == |v|
    ensures forall i | 0 <= i < |v| :: v[i] < 32 && s[i] == SymbolChar(v[i])
  {
    assert Pow2(5) == 32;
    seq(|v|, i requires 0 <= i < |v| => SymbolChar(v[i]))
  }

  datatype Parsed = Parsed(symbols: seq<nat>) | BadChar(c: char)

  /** The symbols of a payload string, or its first character that is not one. */
  function ParseSymbols(s: string): (r: Parsed)
  {
    if s == [] then Parsed([])
    else
      match CharIndex(s[0])
      case None => BadChar(s[0])
      case Some(d) =>
        match ParseSymbols(s[1..])
        case BadChar(c) => BadChar(c)
        case Parsed(rest) => Parsed([d] + rest)
  }

  lemma {:induction false} ParsedAreSymbols(s: string)
    ensures var r := ParseSymbols(s); r.Parsed? ==> |r.symbols| == |s| && Symbols(r.symbols, 5)
  {
    assert Pow2(5) == 32;
    if s != [] {
      ParsedAreSymbols(s[1..]);
    }
  }

  lemma {:induction false} ParsePrintedSymbols(v: seq<nat>)
    requires Symbols(v, 5)
    ensures ParseSymbols(PrintSymbols(v)) == Parsed(v)
  {
    if v != [] {
      assert PrintSymbols(v)[1..] == PrintSymbols(v[1..]);
      ParsePrintedSymbols(v[1..]);
      CharIndexOfSymbol(v[0]);
      assert v == [v[0]] + v[1..];
    }
  }

  lemma {:induction false} PrintParsedSymbols(s: string)
    requires ParseSymbols(s).Parsed? && ToLower(s) == s
    ensures var v := ParseSymbols(s).symbols; Symbols(v, 5) && PrintSymbols(v) == s
  {
    ParsedAreSymbols(s);
    if s != [] {
      LowerTail(s);
      PrintParsedSymbols(s[1..]);
      var v := ParseSymbols(s).symbols;
      PrintCons(v);
      assert v[1..] == ParseSymbols(s[1..]).symbols;
      PrintIndexed(s[0], v[0]);
      assert s == [s[0]] + s[1..];
    }
  }

  lemma LowerTail(s: string)
    requires s != [] && ToLower(s) == s
    ensures LowerChar(s[0]) == s[0] && ToLower(s[1..]) == s[1..]
  {
  }

  lemma PrintCons(v: seq<nat>)
    requires Symbols(v, 5) && v != []
    ensures v[0] < 32 && PrintSymbols(v) == [SymbolChar(v[0])] + PrintSymbols(v[1..])
  {
  }

  lemma PrintIndexed(c: char, d: nat)
    requires CharIndex(c) == Some(d) && LowerChar(c) == c
    ensures d < 32 && SymbolChar(d) == c
  {
  }

  // ---------------------------------------------------------------------------------------
  // Networks and address types
  // ---------------------------------------------------------------------------------------

  datatype Network = Main | Test | Id(id: nat)

  /** These two network ids are reserved for the main and test networks. */
  predicate IsReserved(id: nat) {
    id == 1 || id == 1990
  }

  predicate ValidNetwork(network: Network) {
    network.Id? ==> network.id < TWO_64
  }

  function ToPrefix(network: Network): Option<string> {
    match network
    case Main => Some("mazze")
    case Test => Some("mazzetest")
    case Id(id) => if IsReserved(id) then None else Some("net" + Print(id))
  }

  function FromPrefix(prefix: string): Option<Network> {
    if prefix == "mazze" then Some(Main)
    else if prefix == "mazzetest" then Some(Test)
    else if !("net" <= prefix) then None
    else
      match ParseU64(prefix[3..])
      case None => None
      case Some(id) => if IsReserved(id) then None else Some(Id(id))
  }

  lemma FromPrinted(network: Network)
    requires ValidNetwork(network) && ToPrefix(network).Some?
    ensures FromPrefix(ToPrefix(network).value) == Some(network)
  {
    if network.Id? {
      var digits := Print(network.id);
      ParsePrinted(network.id);
      assert ("net" + digits)[3..] == digits;
      assert ("net" + digits)[0] == 'n';
    }
  }

  /** Prefixes are lower-case letters and digits. */
  lemma PrefixChars(network: Network)
    requires ToPrefix(network).Some?
    ensures var p := ToPrefix(network).value; forall i | 0 <= i < |p| :: IsLower(p[i]) || IsDigit(p[i])
  {
  }

  datatype AddressType = Builtin | Contract | Null | User | Unknown

  function ParseType(text: string): AddressType {
    if text == "builtin" then Builtin
    else if text == "contract" then Contract
    else if text == "null" then Null
    else if text == "user" then User
    else Unknown
  }

  function TypeName(t: AddressType): string {
    match t
    case Builtin => "builtin"
    case Contract => "contract"
    case Null => "null"
    case User => "user"
    case Unknown => "unknown"
  }

  /** The type in the high four bits of the first byte; the all-zero address is the null address. */
  function TypeOf(address: seq<nat>): AddressType
    requires address != []
  {
    var bits := address[0] / 16;
    if bits == 0 then if forall i | 0 <= i < |address| :: address[i] == 0 then Null else Builtin
    else if bits == 8 then Contract
    else if bits == 1 then User
    else Unknown
  }
}
