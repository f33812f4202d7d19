/**
 internal/wol/wol.go: the magic packet, and sending it.  The frame layout is the
 one of AMD's Magic Packet Technology white paper (publication 20213): six FF
 bytes, then sixteen copies of the hardware address.
 */
module Wol {
  import opened Wrappers
  import opened GoStrings

  newtype byte = x: int | 0 <= x < 256

  const PACKET_SIZE: nat := 102

  predicate IsHex(c: char) {
    '0' <= c <= '9' || 'a' <= c <= 'f' || 'A' <= c <= 'F'
  }

  function HexValue(c: char): (v: nat)
    requires IsHex(c)
    ensures v < 16
  {
    if '0' <= c <= '9' then (c - '0') as int
    else if 'a' <= c <= 'f' then 10 + (c - 'a') as int
    else 10 + (c - 'A') as int
  }

  /** hex.DecodeString yielding exactly one byte. */
  predicate IsOctet(part: string) {
    |part| == 2 && IsHex(part[0]) && IsHex(part[1])
  }

  function OctetValue(part: string): byte
    requires IsOctet(part)
  {
    (16 * HexValue(part[0]) + HexValue(part[1])) as byte
  }

  // ---------- the address grammar and the frame it stands for ----------

  /** Six two-digit octets, each boundary marked by ':' or '-'. */
  predicate IsMac(mac: string) {
    |mac| == 17 && forall k | 0 <= k < 17 :: FitsAt(mac, k)
  }

  predicate FitsAt(mac: string, k: nat)
    requires k < |mac|
  {
    if k % 3 == 2 then mac[k] == ':' || mac[k] == '-' else IsHex(mac[k])
  }

  lemma DigitsAt(mac: string, i: nat)
    requires IsMac(mac) && i < 6
    ensures IsHex(mac[3 * i]) && IsHex(mac[3 * i + 1])
  {
    assert FitsAt(mac, 3 * i) && FitsAt(mac, 3 * i + 1);
    assert (3 * i) % 3 == 0 && (3 * i + 1) % 3 == 1;
  }

  function MacOctet(mac: string, k: nat): byte
    requires IsMac(mac) && k < 6
  {
    DigitsAt(mac, k);
    (16 * HexValue(mac[3 * k]) + HexValue(mac[3 * k + 1])) as byte
  }

  /** The six bytes of the hardware address. */
  function Octets(mac: string): (octets: seq<byte>)
    requires IsMac(mac)
    ensures |octets| == 6
    ensures forall i | 0 <= i < 6 :: octets[i] == MacOctet(mac, i)
  {
    seq(6, i requires 0 <= i < 6 => MacOctet(mac, i))
  }

  function PacketByte(octets: seq<byte>, k: nat): byte
    requires |octets| == 6
  {
    if k < 6 then 0xFF else octets[(k - 6) % 6]
  }

  function Packet(octets: seq<byte>): (packet: seq<byte>)
    requires |octets| == 6
    ensures |packet| == PACKET_SIZE
    ensures forall k | 0 <= k < PACKET_SIZE :: packet[k] == PacketByte(octets, k)
  {
    seq(PACKET_SIZE, k requires 0 <= k < PACKET_SIZE => PacketByte(octets, k))
  }

  /** The frame an address stands for. */
  function Frame(mac: string): seq<byte>
    requires IsMac(mac)
  {
    Packet(Octets(mac))
  }

  // ---------- the grammar and the frame, character by character ----------

  lemma HexMeaning(c: char)
    ensures IsHex(c) <==> c in "0123456789abcdefABCDEF"
  {
    assert "0123456789abcdefABCDEF" == "0123456789" + "abcdef" + "ABCDEF";
  }

  lemma FitsMeaning(mac: string, k: nat)
    requires k < |mac|
    ensures FitsAt(mac, k) <==> mac[k] in if k % 3 == 2 then ":-" else "0123456789abcdefABCDEF"
  {
    HexMeaning(mac[k]);
  }

  lemma AddressMeaning(mac: string)
    ensures IsMac(mac) <==>
            |mac| == 17 && forall k | 0 <= k < 17 :: mac[k] in if k % 3 == 2 then ":-" else "0123456789abcdefABCDEF"
  {
    if |mac| == 17 {
      forall k | 0 <= k < 17
        ensures FitsAt(mac, k) <==> mac[k] in if k % 3 == 2 then ":-" else "0123456789abcdefABCDEF"
      {
        FitsMeaning(mac, k);
      }
    }
  }

  const HEX := "0123456789abcdef"

  lemma HexValueMeaning(c: char)
    requires IsHex(c)
    ensures SameLetter(HEX[HexValue(c)], c)
  {
  }

  /** The two hexadecimal digits of a byte, in either case. */
  predicate Spells(high: char, low: char, b: byte) {
    SameLetter(HEX[b as int / 16], high) && SameLetter(HEX[b as int % 16], low)
  }

  /** Byte `i` of the hardware address is what the address spells there. */
  predicate SpelledAt(mac: string, i: nat, b: byte)
    requires |mac| == 17 && i < 6
  {
    Spells(mac[3 * i], mac[3 * i + 1], b)
  }

  /** Six FF bytes, then the six bytes the address spells, over and over. */
  ghost predicate IsFrameOf(packet: seq<byte>, mac: string) {
    && |packet| == 102 && |mac| == 17
    && (forall k | 0 <= k < 6 :: packet[k] == 0xFF)
    && (forall k | 6 <= k < 102 :: SpelledAt(mac, (k - 6) % 6, packet[k]))
  }

  lemma OctetParts(mac: string, i: nat)
    requires IsMac(mac) && i < 6
    ensures IsHex(mac[3 * i]) && IsHex(mac[3 * i + 1])
    ensures MacOctet(mac, i) as int / 16 == HexValue(mac[3 * i])
    ensures MacOctet(mac, i) as int % 16 == HexValue(mac[3 * i + 1])
  {
    DigitsAt(mac, i);
    assert MacOctet(mac, i) as int == 16 * HexValue(mac[3 * i]) + HexValue(mac[3 * i + 1]);
  }

  lemma OctetSpelled(mac: string, i: nat)
    requires IsMac(mac) && i < 6
    ensures SpelledAt(mac, i, MacOctet(mac, i))
  {
    OctetParts(mac, i);
    HexValueMeaning(mac[3 * i]);
    HexValueMeaning(mac[3 * i + 1]);
  }

  lemma PacketRepeats(octets: seq<byte>, mac: string)
    requires |octets| == 6 && |mac| == 17 && forall i | 0 <= i < 6 :: SpelledAt(mac, i, octets[i])
    ensures IsFrameOf(Packet(octets), mac)
  {
    forall k | 6 <= k < 102 ensures SpelledAt(mac, (k - 6) % 6, Packet(octets)[k]) {
      assert Packet(octets)[k] == PacketByte(octets, k);
    }
  }

  lemma FrameMeaning(mac: string)
    requires IsMac(mac)
    ensures IsFrameOf(Frame(mac), mac)
  {
    forall i | 0 <= i < 6 ensures SpelledAt(mac, i, Octets(mac)[i]) {
      OctetSpelled(mac, i);
    }
    PacketRepeats(Octets(mac), mac);
  }

  // ---------- the parser against the grammar ----------

  function MacParts(mac: string): seq<string> {
    Split(ReplaceChar(mac, '-', ':'), ':')
  }

  lemma {:induction false} JoinOfPairs(parts: seq<string>)
    requires parts != [] && forall i | 0 <= i < |parts| :: |parts[i]| == 2
    ensures |Join(parts, ":")| == 3 * |parts| - 1
    ensures forall i | 0 <= i < |parts| ::
              Join(parts, ":")[3 * i] == parts[i][0] && Join(parts, ":")[3 * i + 1] == parts[i][1]
    ensures forall i | 0 <= i < |parts| - 1 :: Join(parts, ":")[3 * i + 2] == ':'
  {
    if |parts| > 1 {
      var rest := parts[1..];
      JoinOfPairs(rest);
      var j := Join(rest, ":");
      assert Join(parts, ":") == parts[0] + ":" + j;
      forall i | 1 <= i < |parts|
        ensures Join(parts, ":")[3 * i] == parts[i][0] && Join(parts, ":")[3 * i + 1] == parts[i][1]
      {
        assert j[3 * (i - 1)] == rest[i - 1][0] && j[3 * (i - 1) + 1] == rest[i - 1][1];
      }
      forall i | 1 <= i < |parts| - 1 ensures Join(parts, ":")[3 * i + 2] == ':' {
        assert j[3 * (i - 1) + 2] == ':';
      }
    }
  }

  /** The digit pairs of an address. */
  function MacPairs(mac: string): (parts: seq<string>)
    requires IsMac(mac)
    ensures |parts| == 6
  {
    seq(6, i requires 0 <= i < 6 => [mac[3 * i], mac[3 * i + 1]])
  }

  lemma PairsAreOctets(mac: string, i: nat)
    requires IsMac(mac) && i < 6
    ensures IsOctet(MacPairs(mac)[i]) && ':' !in MacPairs(mac)[i] && OctetValue(MacPairs(mac)[i]) == MacOctet(mac, i)
  {
    DigitsAt(mac, i);
  }

  lemma JoinOfMacPairs(mac: string)
    requires IsMac(mac)
    ensures Join(MacPairs(mac), ":") == ReplaceChar(mac, '-', ':')
  {
    var text, parts := ReplaceChar(mac, '-', ':'), MacPairs(mac);
    JoinOfPairs(parts);
    forall k | 0 <= k < 17 ensures Join(parts, ":")[k] == text[k] {
      var i := k / 3;
      assert k == 3 * i + k % 3;
      assert FitsAt(mac, k) && (k % 3 != 2 ==> mac[k] != '-') by { DigitsAt(mac, i); }
      assert parts[i] == [mac[3 * i], mac[3 * i + 1]];
    }
  }

  lemma PartsOfMac(mac: string)
    requires IsMac(mac)
    ensures |MacParts(mac)| == 6
    ensures forall i | 0 <= i < 6 :: IsOctet(MacParts(mac)[i]) && OctetValue(MacParts(mac)[i]) == MacOctet(mac, i)
  {
    forall i | 0 <= i < 6
      ensures IsOctet(MacPairs(mac)[i]) && ':' !in MacPairs(mac)[i] && OctetValue(MacPairs(mac)[i]) == MacOctet(mac, i)
    {
      PairsAreOctets(mac, i);
    }
    JoinOfMacPairs(mac);
    SplitOfJoin(MacPairs(mac), ':');
  }

  lemma MacOfParts(mac: string)
    requires |MacParts(mac)| == 6 && forall i | 0 <= i < 6 :: IsOctet(MacParts(mac)[i])
    ensures IsMac(mac)
  {
    var text := ReplaceChar(mac, '-', ':');
    var parts := MacParts(mac);
    JoinOfSplit(text, ':');
    JoinOfPairs(parts);
    forall k | 0 <= k < 17 ensures if k % 3 == 2 then text[k] == ':' else IsHex(text[k]) {
      var i := k / 3;
      assert k == 3 * i + k % 3;
      assert IsOctet(parts[i]);
      assert text[3 * i] == parts[i][0] && text[3 * i + 1] == parts[i][1];
    }
  }

  datatype MacError = NotSixParts(count: nat) | BadOctet(part: string)

  /** Exactly six two-digit octets with a separator between any two are accepted, and give their frame. */
  method NewMagicPacket(mac: string) returns (r: Result<seq<byte>, MacError>)
    ensures r.Ok? <==>
            |mac| == 17 && forall k | 0 <= k < 17 :: mac[k] in if k % 3 == 2 then ":-" else "0123456789abcdefABCDEF"
    ensures r.Ok? ==> IsFrameOf(r.value, mac)
    ensures r == if IsMac(mac) then Ok(Frame(mac)) else Err(MacErrorOf(mac))
  {
    AddressMeaning(mac);
    var text := ReplaceChar(mac, '-', ':');
    var parts := Split(text, ':');
    if IsMac(mac) {
      PartsOfMac(mac);
    }
    if |parts| != 6 {
      return Err(NotSixParts(|parts|));
    }
    var hw := new byte[6];
    for i := 0 to |parts|
      invariant forall k | 0 <= k < i :: IsOctet(parts[k]) && hw[k] == OctetValue(parts[k])
    {
      if !IsOctet(parts[i]) {
        BadOctetIsFirst(mac, i);
        return Err(BadOctet(parts[i]));
      }
      hw[i] := OctetValue(parts[i]);
    }
    MacOfParts(mac);
    PartsOfMac(mac);
    assert hw[..] == Octets(mac);
    var pkt := new byte[PACKET_SIZE];
    FillPacket(pkt, hw);
    assert pkt[..] == Frame(mac);
    FrameMeaning(mac);
    r := Ok(pkt[..]);
  }

  /** Header and payload, written in place. */
  method FillPacket(pkt: array<byte>, hw: array<byte>)
    requires pkt != hw && pkt.Length == PACKET_SIZE && hw.Length == 6
    modifies pkt
    ensures forall k | 0 <= k < PACKET_SIZE :: pkt[k] == if k < 6 then 0xFF else hw[(k - 6) % 6]
  {
    for i := 0 to 6
      invariant forall k | 0 <= k < i :: pkt[k] == 0xFF
    {
      pkt[i] := 0xFF;
    }
    for i := 0 to 16
      invariant forall k | 0 <= k < 6 + 6 * i :: pkt[k] == PacketByte(hw[..], k)
    {
      forall j | 0 <= j < 6 {
        pkt[6 + i * 6 + j] := hw[j];
      }
      forall k | 6 + 6 * i <= k < 12 + 6 * i ensures pkt[k] == PacketByte(hw[..], k) {
        var j := k - 6 - 6 * i;
        assert pkt[6 + i * 6 + j] == hw[j] && (k - 6) % 6 == j;
      }
    }
  }

  /** What is wrong with an address: its number of parts, else its first bad octet. */
  function MacErrorOf(mac: string): MacError {
    var parts := MacParts(mac);
    if |parts| != 6 then NotSixParts(|parts|) else BadOctet(FirstBadOctet(parts))
  }

  function FirstBadOctet(parts: seq<string>): string {
    if parts == [] || !IsOctet(parts[0]) then (if parts == [] then "" else parts[0]) else FirstBadOctet(parts[1..])
  }

  lemma {:induction false} BadOctetAt(parts: seq<string>, i: nat)
    requires i < |parts| && !IsOctet(parts[i]) && forall k | 0 <= k < i :: IsOctet(parts[k])
    ensures FirstBadOctet(parts) == parts[i]
  {
    if i > 0 {
      BadOctetAt(parts[1..], i - 1);
    }
  }

  lemma BadOctetIsFirst(mac: string, i: nat)
    requires |MacParts(mac)| == 6 && i < 6
    requires !IsOctet(MacParts(mac)[i]) && forall k | 0 <= k < i :: IsOctet(MacParts(mac)[k])
    ensures !IsMac(mac) && MacErrorOf(mac) == BadOctet(MacParts(mac)[i])
  {
    BadOctetAt(MacParts(mac), i);
    if IsMac(mac) {
      PartsOfMac(mac);
    }
  }

  /** An address with the wrong number of parts is refused for that, any other for its first part that is no octet. */
  lemma MacErrorMeaning(mac: string)
    requires !IsMac(mac)
    ensures var parts := Split(ReplaceChar(mac, '-', ':'), ':');
            if |parts| != 6 then MacErrorOf(mac) == NotSixParts(|parts|) else
            exists i :: 0 <= i < 6 && MacErrorOf(mac) == BadOctet(parts[i]) && !IsTwoDigits(parts[i])
                        && forall k | 0 <= k < i :: IsTwoDigits(parts[k])
  {
    var parts := MacParts(mac);
    if |parts| == 6 {
      if forall k | 0 <= k < 6 :: IsOctet(parts[k]) {
        MacOfParts(mac);
      }
      var i := FirstBadPart(parts);
      BadOctetAt(parts, i);
      forall k | 0 <= k < 6 ensures IsOctet(parts[k]) <==> IsTwoDigits(parts[k]) {
        TwoDigitsMeaning(parts[k]);
      }
      assert !IsTwoDigits(parts[i]);
    }
  }

  predicate IsTwoDigits(part: string) {
    |part| == 2 && part[0] in "0123456789abcdefABCDEF" && part[1] in "0123456789abcdefABCDEF"
  }

  lemma TwoDigitsMeaning(part: string)
    ensures IsOctet(part) <==> IsTwoDigits(part)
  {
    if |part| == 2 {
      HexMeaning(part[0]);
      HexMeaning(part[1]);
    }
  }

  /** Six parts that make no address hold one that is no octet. */
  lemma FirstBadPart(parts: seq<string>) returns (i: nat)
    requires exists k :: 0 <= k < |parts| && !IsOctet(parts[k])
    ensures i < |parts| && !IsOctet(parts[i]) && forall k | 0 <= k < i :: IsOctet(parts[k])
  {
    i := 0;
    while IsOctet(parts[i])
      invariant i < |parts| && forall k | 0 <= k < i :: IsOctet(parts[k])
      decreases |parts| - i
    {
      i := i + 1;
    }
  }

  // ---------- when two addresses mean the same ----------

  function CanonicalMac(mac: string): string {
    ToLower(ReplaceChar(mac, '-', ':'))
  }

  lemma SameHexDigit(a: char, b: char)
    requires IsHex(a) && IsHex(b)
    ensures HexValue(a) == HexValue(b) <==> LowerChar(a) == LowerChar(b)
  {
  }

  lemma CanonicalDigit(mac: string, k: nat)
    requires IsMac(mac) && k < 17 && k % 3 != 2
    ensures IsHex(mac[k]) && CanonicalMac(mac)[k] == LowerChar(mac[k])
  {
    assert FitsAt(mac, k);
  }

  /** Two digits of one address against two of another. */
  lemma SameDigits(a: string, b: string, h: nat)
    requires IsMac(a) && IsMac(b) && h < 16 && h % 3 == 0
    ensures IsHex(a[h]) && IsHex(a[h + 1]) && IsHex(b[h]) && IsHex(b[h + 1])
    ensures HexValue(a[h]) == HexValue(b[h]) && HexValue(a[h + 1]) == HexValue(b[h + 1])
       <==> CanonicalMac(a)[h] == CanonicalMac(b)[h] && CanonicalMac(a)[h + 1] == CanonicalMac(b)[h + 1]
  {
    CanonicalDigit(a, h);
    CanonicalDigit(a, h + 1);
    CanonicalDigit(b, h);
    CanonicalDigit(b, h + 1);
    SameHexDigit(a[h], b[h]);
    SameHexDigit(a[h + 1], b[h + 1]);
  }

  lemma SameOctet(a: string, b: string, i: nat)
    requires IsMac(a) && IsMac(b) && i < 6
    ensures MacOctet(a, i) == MacOctet(b, i)
       <==> CanonicalMac(a)[3 * i..3 * i + 2] == CanonicalMac(b)[3 * i..3 * i + 2]
  {
    var h, x, y := 3 * i, MacOctet(a, i) as int, MacOctet(b, i) as int;
    OctetParts(a, i);
    OctetParts(b, i);
    assert x == y <==> x / 16 == y / 16 && x % 16 == y % 16;
    SameDigits(a, b, h);
    var ca, cb := CanonicalMac(a), CanonicalMac(b);
    assert ca[h..h + 2] == [ca[h], ca[h + 1]] && cb[h..h + 2] == [cb[h], cb[h + 1]];
  }

  /** A packet shows its address. */
  lemma PacketInjective(a: seq<byte>, b: seq<byte>)
    requires |a| == |b| == 6
    ensures Packet(a) == Packet(b) <==> a == b
  {
    if Packet(a) == Packet(b) {
      forall i | 0 <= i < 6 ensures a[i] == b[i] {
        assert Packet(a)[6 + i] == PacketByte(a, 6 + i) && Packet(b)[6 + i] == PacketByte(b, 6 + i);
      }
    }
  }

  lemma CanonicalSeparator(mac: string, k: nat)
    requires IsMac(mac) && k < 17 && k % 3 == 2
    ensures CanonicalMac(mac)[k] == ':'
  {
    assert FitsAt(mac, k);
  }

  /** Two addresses give one frame exactly when they agree up to case and separator. */
  lemma SameFrameIffSameAddress(a: string, b: string)
    requires IsMac(a) && IsMac(b)
    ensures Frame(a) == Frame(b) <==> CanonicalMac(a) == CanonicalMac(b)
  {
    PacketInjective(Octets(a), Octets(b));
    forall i | 0 <= i < 6
      ensures Octets(a)[i] == Octets(b)[i]
         <==> CanonicalMac(a)[3 * i..3 * i + 2] == CanonicalMac(b)[3 * i..3 * i + 2]
    {
      SameOctet(a, b, i);
    }
    if Octets(a) == Octets(b) {
      forall k | 0 <= k < 17 ensures CanonicalMac(a)[k] == CanonicalMac(b)[k] {
        var i := k / 3;
        if k % 3 == 2 {
          CanonicalSeparator(a, k);
          CanonicalSeparator(b, k);
        } else {
          assert Octets(a)[i] == Octets(b)[i];
          assert CanonicalMac(a)[3 * i..3 * i + 2][k % 3] == CanonicalMac(b)[3 * i..3 * i + 2][k % 3];
        }
      }
    }
  }

  // ---------- sending ----------

  datatype SendOptions = SendOptions(iface: string, broadcast: string, port: int)

  datatype Datagram = Datagram(packet: seq<byte>, options: SendOptions)

  /** Outcome of the socket calls of the k-th attempt: None when the datagram leaves. */
  type Link = nat -> Option<string>

  function Effective(o: SendOptions): SendOptions {
    o.(broadcast := if o.broadcast == "" then "255.255.255.255" else o.broadcast,
       port := if o.port == 0 then 9 else o.port)
  }

  function MacErrorText(e: MacError): string {
    match e
    case NotSixParts(_) => "invalid MAC address: expected 6 hex octets"
    case BadOctet(part) => "invalid MAC octet " + part
  }

  /** Why one send fails, if it does. */
  function SendOneError(mac: string, failure: Option<string>): Option<string> {
    if IsMac(mac) then failure else Some(MacErrorText(MacErrorOf(mac)))
  }

  /** What `Send` puts on the wire: every address is tried, whatever the others do. */
  function SentFrames(macs: seq<string>, o: SendOptions, link: Link): seq<Datagram> {
    if macs == [] then [] else
    var k := |macs| - 1;
    SentFrames(macs[..k], o, link)
    + if SendOneError(macs[k], link(k)).None? then [Datagram(Frame(macs[k]), Effective(o))] else []
  }

  function SendErrors(macs: seq<string>, link: Link): seq<string> {
    if macs == [] then [] else
    var k := |macs| - 1;
    var e := SendOneError(macs[k], link(k));
    SendErrors(macs[..k], link) + if e.Some? then [macs[k] + ": " + e.value] else []
  }

  /** A send over several addresses reports success exactly when every address got its datagram. */
  lemma {:induction false} NoErrorIffAllSent(macs: seq<string>, o: SendOptions, link: Link)
    ensures |SentFrames(macs, o, link)| + |SendErrors(macs, link)| == |macs|
    ensures SendErrors(macs, link) == [] <==> |SentFrames(macs, o, link)| == |macs|
  {
    if macs != [] {
      NoErrorIffAllSent(macs[..|macs| - 1], o, link);
    }
  }

  /** A datagram with the frame of an address, sent with the given options or their defaults. */
  ghost predicate IsWakeUp(d: Datagram, mac: string, iface: string, broadcast: string, port: int) {
    && IsFrameOf(d.packet, mac)
    && d.options.iface == iface
    && d.options.broadcast == (if broadcast == "" then "255.255.255.255" else broadcast)
    && d.options.port == (if port == 0 then 9 else port)
  }

  lemma FrameIsWakeUp(mac: string, o: SendOptions)
    requires IsMac(mac)
    ensures IsWakeUp(Datagram(Frame(mac), Effective(o)), mac, o.iface, o.broadcast, o.port)
  {
    FrameMeaning(mac);
  }

  /** Which addresses are well formed and have their datagram leave. */
  function Leaving(macs: seq<string>, link: Link): (flags: seq<bool>)
    ensures |flags| == |macs| && forall k | 0 <= k < |macs| :: flags[k] == (IsMac(macs[k]) && link(k).None?)
  {
    seq(|macs|, k requires 0 <= k < |macs| => IsMac(macs[k]) && link(k).None?)
  }

  /** The datagrams are those of the addresses at these positions. */
  ghost predicate FramesAt(macs: seq<string>, o: SendOptions, frames: seq<Datagram>, pos: seq<nat>) {
    && |frames| == |pos|
    && forall a | 0 <= a < |pos| ::
         pos[a] < |macs| && IsMac(macs[pos[a]]) && frames[a] == Datagram(Frame(macs[pos[a]]), Effective(o))
  }

  /** Address `n`, if its datagram leaves, adds its frame and its position. */
  lemma FramesOneMore(macs: seq<string>, o: SendOptions, link: Link, n: nat, pos: seq<nat>)
    requires n < |macs| && FramesAt(macs, o, SentFrames(macs[..n], o, link), pos)
    ensures FramesAt(macs, o, SentFrames(macs[..n + 1], o, link), WithPosition(Leaving(macs, link), n, pos))
  {
    assert macs[..n + 1][..n] == macs[..n];
    assert SentFrames(macs[..n + 1], o, link)
        == SentFrames(macs[..n], o, link)
           + if Leaving(macs, link)[n] then [Datagram(Frame(macs[n]), Effective(o))] else [];
  }

  lemma {:induction false} SentAtPositions(macs: seq<string>, o: SendOptions, link: Link, n: nat)
    returns (pos: seq<nat>)
    requires n <= |macs|
    ensures SetPositions(Leaving(macs, link), n, pos)
    ensures FramesAt(macs, o, SentFrames(macs[..n], o, link), pos)
  {
    if n == 0 {
      pos := [];
    } else {
      var before := SentAtPositions(macs, o, link, n - 1);
      FramesOneMore(macs, o, link, n - 1, before);
      OneMorePosition(Leaving(macs, link), n - 1, before);
      pos := WithPosition(Leaving(macs, link), n - 1, before);
    }
  }

  /** Every well-formed address whose datagram leaves is sent its frame, whatever happens to the others. */
  lemma SendMeaning(macs: seq<string>, o: SendOptions, link: Link) returns (pos: seq<nat>)
    ensures SetPositions(Leaving(macs, link), |macs|, pos) && |SentFrames(macs, o, link)| == |pos|
    ensures forall a | 0 <= a < |pos| ::
              IsWakeUp(SentFrames(macs, o, link)[a], macs[pos[a]], o.iface, o.broadcast, o.port)
  {
    pos := SentAtPositions(macs, o, link, |macs|);
    assert macs[..|macs|] == macs;
    var frames := SentFrames(macs, o, link);
    forall a | 0 <= a < |pos| ensures IsWakeUp(frames[a], macs[pos[a]], o.iface, o.broadcast, o.port) {
      FrameIsWakeUp(macs[pos[a]], o);
    }
  }

  /** Which addresses are malformed or have their datagram stay. */
  function Staying(macs: seq<string>, link: Link): (flags: seq<bool>)
    ensures |flags| == |macs| && forall k | 0 <= k < |macs| :: flags[k] == !(IsMac(macs[k]) && link(k).None?)
  {
    seq(|macs|, k requires 0 <= k < |macs| => !(IsMac(macs[k]) && link(k).None?))
  }

  /** What is said of an address whose datagram did not leave. */
  function Complaint(mac: string, failure: Option<string>): string {
    mac + ": " + if IsMac(mac) then failure.Or("") else MacErrorText(MacErrorOf(mac))
  }

  ghost predicate ErrorsAt(macs: seq<string>, link: Link, errors: seq<string>, pos: seq<nat>) {
    && |errors| == |pos|
    && forall a | 0 <= a < |pos| :: pos[a] < |macs| && errors[a] == Complaint(macs[pos[a]], link(pos[a]))
  }

  lemma ErrorsOneMore(macs: seq<string>, link: Link, n: nat, pos: seq<nat>)
    requires n < |macs| && ErrorsAt(macs, link, SendErrors(macs[..n], link), pos)
    ensures ErrorsAt(macs, link, SendErrors(macs[..n + 1], link), WithPosition(Staying(macs, link), n, pos))
  {
    assert macs[..n + 1][..n] == macs[..n];
    assert SendErrors(macs[..n + 1], link)
        == SendErrors(macs[..n], link)
           + if Staying(macs, link)[n] then [Complaint(macs[n], link(n))] else [];
  }

  lemma {:induction false} ErrorsUpTo(macs: seq<string>, link: Link, n: nat) returns (pos: seq<nat>)
    requires n <= |macs|
    ensures SetPositions(Staying(macs, link), n, pos) && ErrorsAt(macs, link, SendErrors(macs[..n], link), pos)
  {
    if n == 0 {
      pos := [];
    } else {
      var before := ErrorsUpTo(macs, link, n - 1);
      ErrorsOneMore(macs, link, n - 1, before);
      OneMorePosition(Staying(macs, link), n - 1, before);
      pos := WithPosition(Staying(macs, link), n - 1, before);
    }
  }

  /** Every other address is complained about, in order, with its own cause. */
  lemma ErrorsMeaning(macs: seq<string>, link: Link) returns (pos: seq<nat>)
    ensures SetPositions(Staying(macs, link), |macs|, pos) && ErrorsAt(macs, link, SendErrors(macs, link), pos)
  {
    pos := ErrorsUpTo(macs, link, |macs|);
    assert macs[..|macs|] == macs;
  }

  /** The wire of the LAN. */
  class Lan {
    var wire: seq<Datagram>

    constructor ()
      ensures wire == []
    {
      wire := [];
    }
  }

  method SendOne(lan: Lan, mac: string, o: SendOptions, failure: Option<string>) returns (err: Option<string>)
    modifies lan
    ensures err == SendOneError(mac, failure)
    ensures lan.wire == old(lan.wire) + if err.None? then [Datagram(Frame(mac), o)] else []
  {
    var packet := NewMagicPacket(mac);
    if packet.Err? {
      return Some(MacErrorText(packet.error));
    }
    if failure.Some? {
      return failure;
    }
    lan.wire := lan.wire + [Datagram(packet.value, o)];
    return None;
  }

  method Send(lan: Lan, macs: seq<string>, opts: SendOptions, link: Link) returns (err: Option<string>)
    modifies lan
    ensures lan.wire == old(lan.wire) + SentFrames(macs, opts, link)
    ensures err == if macs == [] then Some("no MAC addresses configured")
                   else if SendErrors(macs, link) == [] then None
                   else Some(Join(SendErrors(macs, link), "; "))
  {
    if |macs| == 0 {
      return Some("no MAC addresses configured");
    }
    var o := Effective(opts);
    var errs: seq<string> := [];
    for i := 0 to |macs|
      invariant lan.wire == old(lan.wire) + SentFrames(macs[..i], opts, link)
      invariant errs == SendErrors(macs[..i], link)
    {
      assert macs[..i + 1][..i] == macs[..i];
      var e := SendOne(lan, macs[i], o, link(i));
      if e.Some? {
        errs := errs + [macs[i] + ": " + e.value];
      }
    }
    assert macs[..|macs|] == macs;
    if |errs| > 0 {
      return Some(Join(errs, "; "));
    }
    return None;
  }
}
