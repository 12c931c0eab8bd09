/** base64url without padding, over the platform's `btoa` and `atob` (section 5 of RFC 4648). */
module Base64Url {
  import opened Wrappers
  import opened Bits

  const PAD := '='

  ghost predicate IsBytes(bytes: seq<nat>) { AllBelow(bytes, 256) }

  // ---- the alphabet

  function Symbol(v: nat): (c: char)
    requires v < 64
    ensures c != PAD && c != '-' && c != '_' && !IsAsciiSpace(c)
  {
    if v < 26 then (v + 65) as char
    else if v < 52 then (v - 26 + 97) as char
    else if v < 62 then (v - 52 + 48) as char
    else if v == 62 then '+'
    else '/'
  }

  function SymbolValue(c: char): (v: Option<nat>)
    ensures v.Some? ==> v.value < 64 && Symbol(v.value) == c
  {
    if 'A' <= c <= 'Z' then Some(c as nat - 65)
    else if 'a' <= c <= 'z' then Some(c as nat - 97 + 26)
    else if '0' <= c <= '9' then Some(c as nat - 48 + 52)
    else if c == '+' then Some(62)
    else if c == '/' then Some(63)
    else None
  }

  lemma SymbolRoundTrip(v: nat)
    requires v < 64
    ensures SymbolValue(Symbol(v)) == Some(v)
  {}

  predicate IsAsciiSpace(c: char) { c == ' ' || c == '\t' || c == '\n' || c == '\U{0c}' || c == '\r' }

  // ---- btoa and atob

  /** Zero bits up to a multiple of six. */
  function SixPad(byteCount: nat): seq<bool> {
    if byteCount % 3 == 0 then [] else if byteCount % 3 == 1 then [false, false, false, false] else [false, false]
  }

  function Sextets(bytes: seq<nat>): seq<nat> { Groups(Ungroup(bytes, 8) + SixPad(|bytes|), 6) }

  function Symbols(values: seq<nat>): string { Map(values, (v: nat) => if v < 64 then Symbol(v) else PAD) }

  function Padding(count: nat): string { seq(count, _ => PAD) }

  /** `btoa`: symbols in fours, the last four filled with padding. */
  function Btoa(bytes: seq<nat>): string {
    Symbols(Sextets(bytes)) + Padding(if |bytes| % 3 == 0 then 0 else 3 - |bytes| % 3)
  }

  function WithoutPadding(text: string): string {
    if |text| % 4 != 0 || text == "" || text[|text| - 1] != PAD then text
    else if text[|text| - 2] != PAD then text[..|text| - 1]
    else text[..|text| - 2]
  }

  function Values(symbols: string): Option<seq<nat>> {
    if symbols == "" then Some([])
    else
      var v, rest := SymbolValue(symbols[0]), Values(symbols[1..]);
      if v.Some? && rest.Some? then Some([v.value] + rest.value) else None
  }

  /** `atob`: None where it throws. Spaces are dropped, up to two closing pads removed, leftover bits discarded. */
  function Atob(text: string): Option<seq<nat>> {
    var core := WithoutPadding(Filter(text, (c: char) => !IsAsciiSpace(c)));
    if |core| % 4 == 1 then None
    else
      var values := Values(core);
      if values.None? then None else Some(Groups(Ungroup(values.value, 6), 8))
  }

  // ---- the url-safe forms

  function ReplaceAll(text: string, from: char, to: char): string { Map(text, (c: char) => if c == from then to else c) }

  function ToB64Url(bytes: seq<nat>): string {
    Filter(ReplaceAll(ReplaceAll(Btoa(bytes), '+', '-'), '/', '_'), (c: char) => c != PAD)
  }

  function FromB64Url(value: string): Option<seq<nat>> {
    var padded := ReplaceAll(ReplaceAll(value, '-', '+'), '_', '/');
    Atob(padded + Padding(if |padded| % 4 == 0 then 0 else 4 - |padded| % 4))
  }

  // ---- the loops of `bytesToB64url` and `b64urlToBytes`

  function CharCodes(bin: string): seq<nat> { Map(bin, (c: char) => c as nat) }

  method BytesToB64Url(bytes: seq<nat>) returns (text: string)
    requires IsBytes(bytes)
    ensures text == ToB64Url(bytes)
  {
    var bin := "";
    for i := 0 to |bytes|
      invariant |bin| == i && forall k | 0 <= k < i :: bin[k] as nat == bytes[k]
    {
      bin := bin + [bytes[i] as char];
    }
    assert CharCodes(bin) == bytes;
    return Filter(ReplaceAll(ReplaceAll(Btoa(CharCodes(bin)), '+', '-'), '/', '_'), (c: char) => c != PAD);
  }

  method B64UrlToBytes(value: string) returns (out: Option<seq<nat>>)
    ensures out == FromB64Url(value)
  {
    var padded := ReplaceAll(ReplaceAll(value, '-', '+'), '_', '/');
    var pad := if |padded| % 4 == 0 then "" else Padding(4 - |padded| % 4);
    assert pad == Padding(if |padded| % 4 == 0 then 0 else 4 - |padded| % 4);
    var bin := Atob(padded + pad);
    if bin.None? {
      return None;
    }
    var filled := new nat[|bin.value|];
    for i := 0 to filled.Length
      invariant filled[..i] == bin.value[..i]
    {
      filled[i] := bin.value[i];
    }
    assert filled[..] == bin.value;
    return Some(filled[..]);
  }

  // ---- the round trip

  lemma SextetCount(bytes: seq<nat>)
    requires IsBytes(bytes)
    ensures AllBelow(Sextets(bytes), 64)
    ensures 6 * |Sextets(bytes)| == 8 * |bytes| + |SixPad(|bytes|)|
    ensures Ungroup(Sextets(bytes), 6) == Ungroup(bytes, 8) + SixPad(|bytes|)
  {
    var bits := Ungroup(bytes, 8) + SixPad(|bytes|);
    TimesIsProduct(|bytes|, 8);
    TimesIsProduct(|bits| / 6, 6);
    UngroupOfGroups(bits, 6, |bits| / 6);
    assert Pow2(6) == 64;
  }

  lemma {:induction false} ValuesOfSymbols(values: seq<nat>)
    requires AllBelow(values, 64)
    ensures Values(Symbols(values)) == Some(values)
  {
    if values != [] {
      SymbolRoundTrip(values[0]);
      ValuesOfSymbols(values[1..]);
      assert Symbols(values)[0] == Symbol(values[0]) && Symbols(values)[1..] == Symbols(values[1..]);
      assert values == [values[0]] + values[1..];
    }
  }

  /** The url-safe text: the symbols with two of them renamed, and no padding at all. */
  lemma UrlText(bytes: seq<nat>)
    requires IsBytes(bytes)
    ensures ToB64Url(bytes) == ReplaceAll(ReplaceAll(Symbols(Sextets(bytes)), '+', '-'), '/', '_')
    ensures ReplaceAll(ReplaceAll(ToB64Url(bytes), '-', '+'), '_', '/') == Symbols(Sextets(bytes))
  {
    SextetCount(bytes);
    var symbols := Symbols(Sextets(bytes));
    var pads := Padding(if |bytes| % 3 == 0 then 0 else 3 - |bytes| % 3);
    var renamed := ReplaceAll(ReplaceAll(symbols, '+', '-'), '/', '_');
    assert ReplaceAll(ReplaceAll(symbols + pads, '+', '-'), '/', '_') == renamed + pads;
    var keep := (c: char) => c != PAD;
    FilterAppend(renamed, pads, keep);
    FilterAll(renamed, keep);
    FilterNone(pads, keep);
    assert ReplaceAll(ReplaceAll(renamed, '-', '+'), '_', '/') == symbols;
  }

  /** The stripped text never has length 1 modulo 4, and the padding restored is exactly what was removed. */
  lemma LengthsAgree(bytes: seq<nat>)
    requires IsBytes(bytes)
    ensures |ToB64Url(bytes)| % 4 != 1
    ensures (if |ToB64Url(bytes)| % 4 == 0 then 0 else 4 - |ToB64Url(bytes)| % 4) == if |bytes| % 3 == 0 then 0 else 3 - |bytes| % 3
  {
    hide Groups, Ungroup, Times, Sextets, ToB64Url, Pow2;
    SextetCount(bytes);
    UrlText(bytes);
  }

  /** `b64urlToBytes` undoes `bytesToB64url` on every byte sequence. */
  lemma UrlRoundTrip(bytes: seq<nat>)
    requires IsBytes(bytes)
    ensures FromB64Url(ToB64Url(bytes)) == Some(bytes)
  {
    hide Groups, Ungroup, Sextets, ToB64Url, Symbols, ReplaceAll, Atob;
    UrlText(bytes);
    LengthsAgree(bytes);
    AtobOfSymbols(bytes);
  }

  lemma SymbolsArePlain(values: seq<nat>)
    requires AllBelow(values, 64)
    ensures forall i | 0 <= i < |Symbols(values)| :: Symbols(values)[i] != PAD && !IsAsciiSpace(Symbols(values)[i])
  {
  }

  lemma FoursAreFull(bytes: seq<nat>)
    requires IsBytes(bytes)
    ensures |Symbols(Sextets(bytes))| == |ToB64Url(bytes)|
    ensures (|Symbols(Sextets(bytes))| + if |bytes| % 3 == 0 then 0 else 3 - |bytes| % 3) % 4 == 0
  {
    hide Groups, Ungroup, Times, Sextets, ToB64Url, Pow2;
    SextetCount(bytes);
    UrlText(bytes);
  }

  /** `atob` on symbols filled up to fours: the symbols' values, regrouped. */
  lemma AtobOfFours(symbols: string, pads: string)
    requires forall i | 0 <= i < |symbols| :: symbols[i] != PAD && !IsAsciiSpace(symbols[i])
    requires |pads| <= 2 && (|symbols| + |pads|) % 4 == 0 && forall i | 0 <= i < |pads| :: pads[i] == PAD
    ensures Atob(symbols + pads) == if Values(symbols).None? then None else Some(Groups(Ungroup(Values(symbols).value, 6), 8))
  {
    hide Groups, Ungroup, Values, WithoutPadding, Filter;
    FilterAll(symbols + pads, (c: char) => !IsAsciiSpace(c));
    PaddingComesOff(symbols, pads);
  }

  lemma AtobOfSymbols(bytes: seq<nat>)
    requires IsBytes(bytes)
    ensures Atob(Symbols(Sextets(bytes)) + Padding(if |bytes| % 3 == 0 then 0 else 3 - |bytes| % 3)) == Some(bytes)
    ensures |Symbols(Sextets(bytes))| == |ToB64Url(bytes)|
  {
    SextetCount(bytes);
    FoursAreFull(bytes);
    SymbolsArePlain(Sextets(bytes));
    ValuesOfSymbols(Sextets(bytes));
    BytesFromSextets(bytes);
    hide Groups, Ungroup, Pow2, Times, Values, Sextets, ToB64Url, SixPad, Symbols, IsBytes, Atob;
    AtobOfFours(Symbols(Sextets(bytes)), Padding(if |bytes| % 3 == 0 then 0 else 3 - |bytes| % 3));
  }

  lemma BytesFromSextets(bytes: seq<nat>)
    requires IsBytes(bytes)
    ensures Groups(Ungroup(Sextets(bytes), 6), 8) == bytes
  {
    assert Pow2(4) == 16 && Pow2(8) == 16 * Pow2(4);
    SextetCount(bytes);
    GroupsIgnoreTail(bytes, 8, SixPad(|bytes|));
  }

  lemma PaddingComesOff(symbols: string, pads: string)
    requires forall i | 0 <= i < |symbols| :: symbols[i] != PAD
    requires |pads| <= 2 && (|symbols| + |pads|) % 4 == 0 && forall i | 0 <= i < |pads| :: pads[i] == PAD
    ensures WithoutPadding(symbols + pads) == symbols
  {}

  /** The text holds only url-safe symbols: no dot, no padding; and it is empty only for no bytes. */
  lemma UrlAlphabet(bytes: seq<nat>)
    requires IsBytes(bytes)
    ensures forall i | 0 <= i < |ToB64Url(bytes)| :: ToB64Url(bytes)[i] != '.' && ToB64Url(bytes)[i] != PAD
    ensures ToB64Url(bytes) == "" <==> bytes == []
  {
    SextetCount(bytes);
    UrlText(bytes);
  }

  // ---- the text as a number, and what does not decode

  /** Table 2 of RFC 4648. */
  predicate IsUrlDigit(c: char, v: nat) {
    if v < 26 then c as nat == 'A' as nat + v
    else if v < 52 then c as nat == 'a' as nat + (v - 26)
    else if v < 62 then c as nat == '0' as nat + (v - 52)
    else if v == 62 then c == '-' else v == 63 && c == '_'
  }

  /**
   * The text is the bytes' number written to base 64, after as many zero bits as fill the last digit: one digit for every
   * six bits begun.
   */
  lemma TextIsTheNumber(bytes: seq<nat>) returns (digits: seq<nat>)
    requires IsBytes(bytes)
    ensures |digits| == |ToB64Url(bytes)| == (8 * |bytes| + 5) / 6
    ensures forall i | 0 <= i < |digits| :: IsUrlDigit(ToB64Url(bytes)[i], digits[i])
    ensures BigEndian(digits, 64) == BigEndian(bytes, 256) * (if |bytes| % 3 == 0 then 1 else if |bytes| % 3 == 1 then 16 else 4)
  {
    hide Groups, Ungroup, ValueOf, BigEndian, Sextets, ToB64Url;
    digits := Sextets(bytes);
    SextetCount(bytes);
    UrlText(bytes);
    assert Pow2(6) == 64 && Pow2(4) == 16 && Pow2(2) == 4 && Pow2(0) == 1 && Pow2(8) == 16 * Pow2(4);
    ValueOfUngroup(digits, 6);
    ValueOfUngroup(bytes, 8);
    ValueOfAppend(Ungroup(bytes, 8), SixPad(|bytes|));
    ZeroValue(SixPad(|bytes|));
  }

  predicate Readable(c: char) { 'A' <= c <= 'Z' || 'a' <= c <= 'z' || '0' <= c <= '9' || c == '-' || c == '_' || c == '+' || c == '/' }

  lemma {:induction false} ValuesIff(symbols: string)
    ensures Values(symbols).Some? <==> forall i | 0 <= i < |symbols| :: SymbolValue(symbols[i]).Some?
  {
    if symbols != "" {
      ValuesIff(symbols[1..]);
      assert forall i | 1 <= i < |symbols| :: symbols[i] == symbols[1..][i - 1];
    }
  }

  /** The renamed text has the same stray characters, and no spaces or padding either. */
  lemma Renamed(value: string)
    requires forall i | 0 <= i < |value| :: !IsAsciiSpace(value[i]) && value[i] != PAD
    ensures var padded := ReplaceAll(ReplaceAll(value, '-', '+'), '_', '/');
            && |padded| == |value| && (forall i | 0 <= i < |value| :: !IsAsciiSpace(padded[i]) && padded[i] != PAD)
            && forall i | 0 <= i < |value| :: SymbolValue(padded[i]).Some? <==> Readable(value[i])
  {
  }

  /** One symbol over: three pads are put and two come off, so a pad is left that no symbol is. */
  lemma LonePad(padded: string)
    requires |padded| % 4 == 1 && forall i | 0 <= i < |padded| :: !IsAsciiSpace(padded[i])
    ensures Atob(padded + Padding(3)).None?
  {
    hide Groups, Ungroup, Values, Filter;
    FilterAll(padded + Padding(3), (c: char) => !IsAsciiSpace(c));
    var core := WithoutPadding(padded + Padding(3));
    assert core == padded + [PAD];
    assert core[|padded|] == PAD;
    ValuesIff(core);
  }

  /** Without spaces and padding of its own, a text decodes exactly when it has no stray character and no lone last one. */
  lemma DecodesIff(value: string)
    requires forall i | 0 <= i < |value| :: !IsAsciiSpace(value[i]) && value[i] != PAD
    ensures FromB64Url(value).Some? <==> |value| % 4 != 1 && forall i | 0 <= i < |value| :: Readable(value[i])
  {
    hide Groups, Ungroup, Values, Filter, Atob, ReplaceAll, SymbolValue, Readable;
    var padded := ReplaceAll(ReplaceAll(value, '-', '+'), '_', '/');
    Renamed(value);
    if |value| % 4 == 1 {
      LonePad(padded);
    } else {
      ValuesIff(padded);
      AtobOfFours(padded, Padding(if |padded| % 4 == 0 then 0 else 4 - |padded| % 4));
    }
  }
}
