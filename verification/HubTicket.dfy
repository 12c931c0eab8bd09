/** Hub tickets: a base64url payload, a dot, and a base64url keyed hash of the payload text. */
module HubTicket {
  import opened Wrappers
  import opened Bits
  import opened Base64Url

  datatype Purpose = Ws | Fanout | LimitCheck | Cron

  datatype Ticket = Ticket(purpose: Purpose, userId: string, deviceId: Option<string>, exp: int)

  /** What opening does: hand back a ticket, return null, or throw. */
  datatype Opening = Opened(ticket: Ticket) | Refused | Threw

  /**
   * The platform: a keyed hash over text, the ticket's JSON bytes, and the parse that undoes it
   * (text decoding, JSON and schema together; None where any of them rejects).
   */
  datatype Platform = Platform(
    hmac: (string, string) -> seq<nat>,
    toJson: Ticket -> seq<nat>,
    fromJson: seq<nat> -> Option<Ticket>)

  /** The keyed hash yields some bytes. */
  ghost predicate Keyed(p: Platform) {
    forall secret, text :: IsBytes(p.hmac(secret, text)) && p.hmac(secret, text) != []
  }

  /** `token.split(".")`. */
  function SplitDots(text: string): (parts: seq<string>)
    ensures parts != []
  {
    var at := FirstIndex(text, (c: char) => c == '.');
    if at == |text| then [text] else [text[..at]] + SplitDots(text[at + 1..])
  }

  function Mint(p: Platform, secret: string, ticket: Ticket): string {
    var payload := ToB64Url(p.toJson(ticket));
    payload + "." + ToB64Url(p.hmac(secret, payload))
  }

  function Open(p: Platform, secret: string, token: string, now: int): Opening {
    var parts := SplitDots(token);
    if |parts| != 2 || parts[0] == "" || parts[1] == "" then Refused
    else
      var given := FromB64Url(parts[1]);
      if given.None? then Threw
      else if given.value != p.hmac(secret, parts[0]) then Refused
      else
        var payload := FromB64Url(parts[0]);
        if payload.None? then Refused
        else
          var ticket := p.fromJson(payload.value);
          if ticket.None? || ticket.value.exp <= now then Refused else Opened(ticket.value)
  }

  // ---- the code's own comparison: differences gathered with xor and or

  method SameBytes(given: seq<nat>, expected: seq<nat>) returns (same: bool)
    requires IsBytes(given) && IsBytes(expected)
    ensures same <==> given == expected
  {
    if |given| != |expected| {
      return false;
    }
    var diff := 0;
    for i := 0 to |given|
      invariant diff < 256 && (diff == 0 <==> given[..i] == expected[..i])
    {
      XorIsByte(given[i], expected[i]);
      XorIsZero(given[i], expected[i]);
      OrIsZero(diff, Xor(given[i], expected[i]));
      assert given[..i + 1] == given[..i] + [given[i]] && expected[..i + 1] == expected[..i] + [expected[i]];
      diff := Or(diff, Xor(given[i], expected[i]));
    }
    assert given[..|given|] == given && expected[..|given|] == expected;
    return diff == 0;
  }

  method OpenHubTicket(p: Platform, secret: string, token: string, now: int) returns (o: Opening)
    requires Keyed(p)
    ensures o == Open(p, secret, token, now)
  {
    hide SplitDots, FromB64Url;
    var parts := SplitDots(token);
    if |parts| != 2 || parts[0] == "" || parts[1] == "" {
      return Refused;
    }
    var given := B64UrlToBytes(parts[1]);
    if given.None? {
      return Threw;
    }
    var expected := p.hmac(secret, parts[0]);
    DecodedAreBytes(parts[1]);
    var same := SameBytes(given.value, expected);
    if !same {
      return Refused;
    }
    var payload := B64UrlToBytes(parts[0]);
    if payload.None? {
      return Refused;
    }
    var ticket := p.fromJson(payload.value);
    if ticket.None? || ticket.value.exp <= now {
      return Refused;
    }
    return Opened(ticket.value);
  }

  lemma DecodedAreBytes(text: string)
    ensures FromB64Url(text).Some? ==> IsBytes(FromB64Url(text).value)
  {
    var r := FromB64Url(text);
    if r.Some? {
      var padded := ReplaceAll(ReplaceAll(text, '-', '+'), '_', '/');
      var full := padded + Padding(if |padded| % 4 == 0 then 0 else 4 - |padded| % 4);
      var core := WithoutPadding(Filter(full, (c: char) => !IsAsciiSpace(c)));
      assert Pow2(4) == 16 && Pow2(8) == 16 * Pow2(4);
      GroupsAreBelow(Ungroup(Values(core).value, 6), 8);
    }
  }

  lemma {:induction false} GroupsAreBelow(bits: seq<bool>, width: nat)
    requires width > 0
    ensures AllBelow(Groups(bits, width), Pow2(width))
    decreases |bits|
  {
    if |bits| >= width {
      BitsOfValue(bits[..width]);
      GroupsAreBelow(bits[width..], width);
    }
  }

  // ---- framing

  lemma {:induction false} NoDots(text: string)
    requires '.' !in text
    ensures SplitDots(text) == [text]
  {
    assert forall i | 0 <= i < |text| :: text[i] in text;
  }

  lemma FirstDot(head: string, tail: string)
    requires '.' !in head
    ensures SplitDots(head + "." + tail) == [head] + SplitDots(tail)
  {
    var text := head + "." + tail;
    var at := FirstIndex(text, (c: char) => c == '.');
    assert text[|head|] == '.';
    assert forall i | 0 <= i < |head| :: text[i] == head[i] && head[i] in head;
    assert at == |head| && text[..at] == head && text[at + 1..] == tail;
  }

  lemma {:induction false} TwoParts(token: string)
    requires |SplitDots(token)| == 2
    ensures var parts := SplitDots(token);
            token == parts[0] + "." + parts[1] && '.' !in parts[0] && '.' !in parts[1]
  {
    var at := FirstIndex(token, (c: char) => c == '.');
    var tail := token[at + 1..];
    var at' := FirstIndex(tail, (c: char) => c == '.');
    assert at < |token|;
    assert token == token[..at] + "." + tail;
    assert SplitDots(tail) == [tail] && at' == |tail|;
  }

  // ---- the main results

  /**
   * What was minted opens to whatever its own JSON parses to, until that expires: to the same ticket exactly when parse
   * and schema accept this ticket's JSON (they reject ids that are no UUIDs) and it has not expired.
   */
  lemma MintThenOpen(p: Platform, secret: string, ticket: Ticket, now: int)
    requires Keyed(p) && IsBytes(p.toJson(ticket)) && p.toJson(ticket) != []
    ensures var parsed := p.fromJson(p.toJson(ticket));
            Open(p, secret, Mint(p, secret, ticket), now)
              == if parsed.Some? && now < parsed.value.exp then Opened(parsed.value) else Refused
    ensures Open(p, secret, Mint(p, secret, ticket), now) == Opened(ticket)
            <==> p.fromJson(p.toJson(ticket)) == Some(ticket) && now < ticket.exp
  {
    hide SplitDots, ToB64Url, FromB64Url;
    var json := p.toJson(ticket);
    var payload := ToB64Url(json);
    var sig := p.hmac(secret, payload);
    UrlAlphabet(json);
    UrlAlphabet(sig);
    FirstDot(payload, ToB64Url(sig));
    NoDots(ToB64Url(sig));
    UrlRoundTrip(sig);
    UrlRoundTrip(json);
  }

  /** A token opens exactly when it is two non-empty texts around one dot, the second the keyed hash of the first. */
  lemma OpensIffSigned(p: Platform, secret: string, token: string, now: int, ticket: Ticket)
    ensures Open(p, secret, token, now) == Opened(ticket)
            <==> exists payload, sig :: Signed(p, secret, token, payload, sig) && p.fromJson(FromB64Url(payload).value) == Some(ticket)
                                        && now < ticket.exp
  {
    hide FromB64Url;
    var parts := SplitDots(token);
    if Open(p, secret, token, now) == Opened(ticket) {
      TwoParts(token);
      assert Signed(p, secret, token, parts[0], parts[1]);
    }
    if payload, sig :| Signed(p, secret, token, payload, sig) && p.fromJson(FromB64Url(payload).value) == Some(ticket) && now < ticket.exp {
      FirstDot(payload, sig);
      NoDots(sig);
    }
  }

  ghost predicate Signed(p: Platform, secret: string, token: string, payload: string, sig: string) {
    && token == payload + "." + sig && payload != "" && sig != "" && '.' !in payload && '.' !in sig
    && FromB64Url(sig) == Some(p.hmac(secret, payload)) && FromB64Url(payload).Some?
  }

  /** The signature part is decoded outside the guarded section, so a token with a malformed one throws instead of returning null. */
  lemma MalformedSignatureThrows(p: Platform, secret: string, token: string, now: int)
    ensures Open(p, secret, token, now) == Threw
            <==> |SplitDots(token)| == 2 && SplitDots(token)[0] != "" && SplitDots(token)[1] != ""
                 && FromB64Url(SplitDots(token)[1]).None?
    ensures Open(p, secret, "a.!", now) == Threw
  {
    hide FromB64Url;
    FirstDot("a", "!");
    NoDots("!");
    assert "a" + "." + "!" == "a.!";
    BangIsMalformed();
  }

  lemma BangIsMalformed()
    ensures FromB64Url("!").None?
  {
    hide Groups, Ungroup;
    var padded := ReplaceAll(ReplaceAll("!", '-', '+'), '_', '/');
    assert padded == "!";
    var text := "!" + Padding(3);
    assert text == "!===";
    FilterAll(text, (c: char) => !IsAsciiSpace(c));
    assert WithoutPadding(text) == "!=";
    assert SymbolValue("!="[0]).None?;
  }
}
