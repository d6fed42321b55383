/** The text an envelope's provenance is stored as reads back as that provenance: `json.loads` after
    `json.dumps` with ASCII only, keys sorted and no spaces. */
module ProvenanceText {
  import opened Common
  import opened PeerRecords

  // ---------------------------------------------------------------- reading

  /** What follows `lead`, if the text starts with it. */
  function After(s: string, lead: string): Option<string> {
    if lead <= s then Some(s[|lead|..]) else None
  }

  predicate IsDigit(c: char) {
    '0' <= c <= '9'
  }

  function DigitRun(s: string): (n: nat)
    ensures n <= |s|
  {
    if s != "" && IsDigit(s[0]) then 1 + DigitRun(s[1..]) else 0
  }

  function Value(digits: string): nat
    requires forall k :: 0 <= k < |digits| ==> IsDigit(digits[k])
    decreases |digits|
  {
    if digits == "" then 0
    else 10 * Value(digits[..|digits| - 1]) + DigitValue(digits[|digits| - 1])
  }

  function DigitValue(c: char): nat
    requires IsDigit(c)
  {
    c as int - '0' as int
  }

  lemma {:induction false} RunIsDigits(s: string)
    ensures forall k :: 0 <= k < DigitRun(s) ==> IsDigit(s[k])
    decreases |s|
  {
    if s != "" && IsDigit(s[0]) {
      RunIsDigits(s[1..]);
    }
  }

  /** A number and the text after it. */
  function ReadNat(s: string): Option<(nat, string)> {
    RunIsDigits(s);
    var n := DigitRun(s);
    if n == 0 then None else Some((Value(s[..n]), s[n..]))
  }

  function ReadInt(s: string): Option<(int, string)> {
    if s != "" && s[0] == '-' then
      match ReadNat(s[1..])
      case None => None
      case Some(read) => Some((0 - read.0 as int, read.1))
    else
      match ReadNat(s)
      case None => None
      case Some(read) => Some((read.0 as int, read.1))
  }

  function HexValue(c: char): Option<nat> {
    if '0' <= c <= '9' then Some(c as int - '0' as int)
    else if 'a' <= c <= 'f' then Some(c as int - 'a' as int + 10)
    else None
  }

  /** The code unit of `\uXXXX` at the start of the text. */
  function ReadUnit(s: string): Option<nat> {
    if |s| < 6 || s[0] != '\\' || s[1] != 'u' then None
    else
      match (HexValue(s[2]), HexValue(s[3]), HexValue(s[4]), HexValue(s[5]))
      case (Some(a), Some(b), Some(c), Some(d)) => Some(4096 * a + 256 * b + 16 * c + d)
      case _ => None
  }

  /** One character of a JSON string and how long it is written; a surrogate pair is one character. */
  function ReadChar(s: string): Option<(char, nat)> {
    if s == "" then None
    else if s[0] != '\\' then Some((s[0], 1))
    else if |s| < 2 then None
    else if s[1] == '"' || s[1] == '\\' then Some((s[1], 2))
    else if s[1] == 'n' then Some(('\n', 2))
    else if s[1] == 'r' then Some(('\r', 2))
    else if s[1] == 't' then Some(('\t', 2))
    else if s[1] == 'b' then Some((8 as char, 2))
    else if s[1] == 'f' then Some((12 as char, 2))
    else ReadEscaped(s)
  }

  function ReadEscaped(s: string): Option<(char, nat)> {
    match ReadUnit(s)
    case None => None
    case Some(unit) =>
      if unit < 0xD800 || 0xE000 <= unit < 0x10000 then Some((unit as char, 6))
      else if unit < 0xDC00 then
        match ReadUnit(s[6..])
        case None => None
        case Some(low) =>
          if 0xDC00 <= low < 0xE000 then Some(((0x10000 + 1024 * (unit - 0xD800) + (low - 0xDC00)) as char, 12)) else None
      else None
  }

  /** A JSON string up to its closing quote, and the text after the quote. */
  function ReadString(s: string): Option<(string, string)>
    decreases |s|
  {
    if s == "" then None
    else if s[0] == '"' then Some(("", s[1..]))
    else
      match ReadChar(s)
      case None => None
      case Some((c, n)) =>
        if n > |s| then None
        else
          match ReadString(s[n..])
          case None => None
          case Some((text, rest)) => Some(([c] + text, rest))
  }

  /** A number under a key. */
  function ReadField(s: string, key: string): Option<(int, string)> {
    match After(s, key)
    case None => None
    case Some(rest) => ReadInt(rest)
  }

  function ReadPeer(s: string): Option<Option<string>> {
    if s == "}" then Some(None)
    else
      match After(s, ",\"source_peer\":\"")
      case None => None
      case Some(rest) =>
        match ReadString(rest)
        case Some((peer, end)) => if end == "}" then Some(Some(peer)) else None
        case None => None
  }

  /** The provenance a text holds. */
  function ReadRef(s: string): Option<SourceRef> {
    match ReadField(s, "{\"queue_claim_fence\":")
    case None => None
    case Some((fence, a)) =>
      match ReadField(a, ",\"queue_entry_id\":")
      case None => None
      case Some((entry, b)) =>
        match ReadField(b, ",\"source_dm_id\":")
        case None => None
        case Some((dm, c)) =>
          match ReadPeer(c)
          case None => None
          case Some(peer) => Some(SourceRef(entry, dm, fence, peer))
  }

  // ---------------------------------------------------------------- numbers read back

  ghost predicate NoDigitFirst(s: string) {
    s != "" ==> !IsDigit(s[0])
  }

  lemma {:induction false} RunEnds(digits: string, rest: string)
    requires (forall k :: 0 <= k < |digits| ==> IsDigit(digits[k])) && NoDigitFirst(rest)
    ensures DigitRun(digits + rest) == |digits|
    decreases |digits|
  {
    if digits == "" {
      assert digits + rest == rest;
    } else {
      assert (digits + rest)[1..] == digits[1..] + rest;
      RunEnds(digits[1..], rest);
    }
  }

  lemma {:induction false} NatValue(n: nat)
    ensures Value(NatText(n)) == n
  {
    var s := NatText(n);
    if n < 10 {
      assert s == [Digit(n)] && s[..0] == "";
    } else {
      assert s[..|s| - 1] == NatText(n / 10);
      NatValue(n / 10);
    }
  }

  lemma NatReadsBack(n: nat, rest: string)
    requires NoDigitFirst(rest)
    ensures ReadNat(NatText(n) + rest) == Some((n, rest))
  {
    var digits := NatText(n);
    RunEnds(digits, rest);
    NatValue(n);
    assert (digits + rest)[..|digits|] == digits && (digits + rest)[|digits|..] == rest;
  }

  lemma IntReadsBack(n: int, rest: string)
    requires NoDigitFirst(rest)
    ensures ReadInt(IntText(n) + rest) == Some((n, rest))
  {
    if n < 0 {
      NatReadsBack(-n, rest);
      Signed(NatText(-n), rest);
    } else {
      NatReadsBack(n, rest);
      Unsigned(NatText(n), rest);
    }
  }

  lemma Signed(digits: string, rest: string)
    requires ReadNat(digits + rest).Some?
    ensures var read := ReadNat(digits + rest).value; ReadInt("-" + digits + rest) == Some((0 - read.0 as int, read.1))
  {
    assert ("-" + digits + rest)[1..] == digits + rest;
  }

  lemma Unsigned(digits: string, rest: string)
    requires digits != "" && digits[0] != '-' && ReadNat(digits + rest).Some?
    ensures var read := ReadNat(digits + rest).value; ReadInt(digits + rest) == Some((read.0 as int, read.1))
  {
    assert (digits + rest)[0] == digits[0];
  }

  // ---------------------------------------------------------------- characters read back

  lemma HexReadsBack(n: nat)
    requires n < 16
    ensures HexValue(HexDigit(n)) == Some(n)
  {
    var hex := "0123456789abcdef";
    assert forall k :: 0 <= k < 10 ==> hex[k] as int == '0' as int + k;
    assert forall k :: 10 <= k < 16 ==> hex[k] as int == 'a' as int + k - 10;
  }

  lemma UnitReadsBack(n: nat, rest: string)
    requires n < 0x10000
    ensures |UnicodeEscape(n)| == 6 && UnicodeEscape(n)[0] == '\\' && UnicodeEscape(n)[1] == 'u'
    ensures ReadUnit(UnicodeEscape(n) + rest) == Some(n)
  {
    var (a, b, c, d) := (n / 4096, n / 256 % 16, n / 16 % 16, n % 16);
    HexReadsBack(a);
    HexReadsBack(b);
    HexReadsBack(c);
    HexReadsBack(d);
    HexSplits(n);
    UnitOf(UnicodeEscape(n) + rest, a, b, c, d);
  }

  lemma HexSplits(n: nat)
    ensures n == 4096 * (n / 4096) + 256 * (n / 256 % 16) + 16 * (n / 16 % 16) + n % 16
  {
    assert n / 256 == n / 16 / 16 && n / 4096 == n / 256 / 16;
  }

  lemma UnitOf(s: string, a: nat, b: nat, c: nat, d: nat)
    requires |s| >= 6 && s[0] == '\\' && s[1] == 'u'
    requires HexValue(s[2]) == Some(a) && HexValue(s[3]) == Some(b) && HexValue(s[4]) == Some(c) && HexValue(s[5]) == Some(d)
    ensures ReadUnit(s) == Some(4096 * a + 256 * b + 16 * c + d)
  {
  }

  ghost predicate IsShort(c: char) {
    c == '"' || c == '\\' || c == '\n' || c == '\r' || c == '\t' || c == 8 as char || c == 12 as char
  }

  lemma OneUnit(s: string, n: nat)
    requires ReadUnit(s) == Some(n) && (n < 0xD800 || 0xE000 <= n < 0x10000)
    ensures ReadEscaped(s) == Some((n as char, 6))
  {
  }

  lemma TwoUnits(s: string, high: nat, low: nat)
    requires high < 1024 && low < 1024
    requires ReadUnit(s) == Some(0xD800 + high) && ReadUnit(s[6..]) == Some(0xDC00 + low)
    ensures ReadEscaped(s) == Some(((0x10000 + 1024 * high + low) as char, 12))
  {
  }

  lemma Follows(a: string, b: string, rest: string)
    requires |a| == 6
    ensures a + b + rest == a + (b + rest) && (a + b + rest)[6..] == b + rest
  {
  }

  lemma PairReadsBack(high: nat, low: nat, rest: string)
    requires high < 1024 && low < 1024
    ensures var pair := UnicodeEscape(0xD800 + high) + UnicodeEscape(0xDC00 + low);
      && |pair| == 12 && pair[0] == '\\' && pair[1] == 'u'
      && ReadEscaped(pair + rest) == Some(((0x10000 + 1024 * high + low) as char, 12))
  {
    var b := UnicodeEscape(0xDC00 + low);
    UnitReadsBack(0xD800 + high, b + rest);
    UnitReadsBack(0xDC00 + low, rest);
    Follows(UnicodeEscape(0xD800 + high), b, rest);
    TwoUnits(UnicodeEscape(0xD800 + high) + b + rest, high, low);
  }

  /** How a character without an escape of its own is written. */
  function Escaped(n: nat): string
    requires n < 0x110000
  {
    if n < 0x10000 then UnicodeEscape(n)
    else UnicodeEscape(0xD800 + (n - 0x10000) / 1024) + UnicodeEscape(0xDC00 + (n - 0x10000) % 1024)
  }

  lemma EscapedAs(c: char)
    requires !IsShort(c) && !(' ' <= c <= '~')
    ensures JsonChar(c) == Escaped(c as int)
  {
    if c as int < 0x10000 {
      assert Escaped(c as int) == UnicodeEscape(c as int);
    } else {
      LongAs(c);
      PairAs(c as int);
    }
  }

  lemma LongAs(c: char)
    requires c as int >= 0x10000
    ensures JsonChar(c)
         == UnicodeEscape(0xD800 + (c as int - 0x10000) / 1024 % 1024) + UnicodeEscape(0xDC00 + (c as int - 0x10000) % 1024)
  {
  }

  lemma PairAs(n: nat)
    requires 0x10000 <= n < 0x110000
    ensures UnicodeEscape(0xD800 + (n - 0x10000) / 1024 % 1024) + UnicodeEscape(0xDC00 + (n - 0x10000) % 1024) == Escaped(n)
  {
    var high := (n - 0x10000) / 1024;
    SmallStays(high);
  }

  lemma SmallStays(high: nat)
    requires high < 1024
    ensures high % 1024 == high
  {
  }

  ghost predicate Reads(text: string, n: nat, rest: string) {
    && (n < 0xD800 || 0xE000 <= n < 0x110000) && |text| >= 6 && text[0] == '\\' && text[1] == 'u'
    && ReadEscaped(text + rest) == Some((n as char, |text|))
  }

  lemma UnitReads(n: nat, rest: string)
    requires n < 0xD800 || 0xE000 <= n < 0x10000
    ensures Reads(UnicodeEscape(n), n, rest)
  {
    UnitReadsBack(n, rest);
    OneUnit(UnicodeEscape(n) + rest, n);
  }

  lemma PairReads(n: nat, rest: string)
    requires 0x10000 <= n < 0x110000
    ensures Reads(Escaped(n), n, rest)
  {
    PairReadsBack((n - 0x10000) / 1024, (n - 0x10000) % 1024, rest);
  }

  lemma EscapedReads(c: char, rest: string)
    ensures Reads(Escaped(c as int), c as int, rest)
  {
    if c as int < 0x10000 {
      UnitReads(c as int, rest);
    } else {
      PairReads(c as int, rest);
    }
  }

  lemma EscapeReadsBack(c: char, rest: string)
    requires !IsShort(c) && !(' ' <= c <= '~')
    ensures ReadEscaped(JsonChar(c) + rest) == Some((c, |JsonChar(c)|))
    ensures |JsonChar(c)| >= 6 && JsonChar(c)[0] == '\\' && JsonChar(c)[1] == 'u'
  {
    EscapedAs(c);
    EscapedReads(c, rest);
  }

  lemma CharReadsBack(c: char, rest: string)
    ensures ReadChar(JsonChar(c) + rest) == Some((c, |JsonChar(c)|))
    ensures JsonChar(c) != "" && JsonChar(c)[0] != '"'
  {
    if !IsShort(c) && !(' ' <= c <= '~') {
      EscapeReadsBack(c, rest);
    } else if IsShort(c) {
      assert |JsonChar(c)| == 2 && (JsonChar(c) + rest)[1] == JsonChar(c)[1];
    }
  }

  /** Printable ASCII is written as it is, save the quote and the backslash; seven characters take two
      places, other ones six, those beyond the basic plane twelve. */
  lemma WidthIs(c: char)
    ensures JsonChar(c) == [c] <==> 32 <= c as int <= 126 && c != '"' && c != '\\'
    ensures |JsonChar(c)| == if c as int in {34, 92, 10, 13, 9, 8, 12} then 2
                             else if 32 <= c as int <= 126 then 1
                             else if c as int < 0x10000 then 6 else 12
  {
    if !IsShort(c) && !(' ' <= c <= '~') {
      EscapeReadsBack(c, "");
      EscapedAs(c);
    }
  }

  lemma {:induction false} StringReadsBack(s: string, rest: string)
    ensures ReadString(JsonString(s) + "\"" + rest) == Some((s, rest))
    decreases |s|
  {
    var text := JsonString(s) + "\"" + rest;
    if s == "" {
      assert text == "\"" + rest && text[1..] == rest;
    } else {
      var c, more := JsonChar(s[0]), JsonString(s[1..]) + "\"" + rest;
      assert text == c + more && text[|c|..] == more;
      CharReadsBack(s[0], more);
      StringReadsBack(s[1..], rest);
      assert [s[0]] + s[1..] == s;
    }
  }

  // ---------------------------------------------------------------- provenance reads back

  lemma FieldReadsBack(key: string, n: int, rest: string)
    requires NoDigitFirst(rest)
    ensures ReadField(key + IntText(n) + rest, key) == Some((n, rest))
  {
    assert key + IntText(n) + rest == key + (IntText(n) + rest);
    assert (key + (IntText(n) + rest))[|key|..] == IntText(n) + rest;
    IntReadsBack(n, rest);
  }

  /** What follows the numbers. */
  function PeerText(peer: Option<string>): string {
    match peer
    case None => "}"
    case Some(name) => ",\"source_peer\":\"" + JsonString(name) + "\"" + "}"
  }

  lemma PeerReadsBack(peer: Option<string>)
    ensures ReadPeer(PeerText(peer)) == Some(peer) && NoDigitFirst(PeerText(peer))
  {
    if peer.Some? {
      var key, quoted := ",\"source_peer\":\"", JsonString(peer.value) + "\"" + "}";
      assert PeerText(peer) == key + quoted && (key + quoted)[|key|..] == quoted;
      StringReadsBack(peer.value, "}");
    }
  }

  lemma TextIs(ref: SourceRef)
    ensures SourceRefText(ref)
         == "{\"queue_claim_fence\":" + IntText(ref.queueClaimFence)
            + (",\"queue_entry_id\":" + IntText(ref.queueEntryId)
               + (",\"source_dm_id\":" + IntText(ref.sourceDmId) + PeerText(ref.sourcePeer)))
  {
    var tail := match ref.sourcePeer
      case None => ""
      case Some(name) => ",\"source_peer\":\"" + JsonString(name) + "\"";
    assert PeerText(ref.sourcePeer) == tail + "}";
    Regrouped("{\"queue_claim_fence\":", IntText(ref.queueClaimFence), ",\"queue_entry_id\":", IntText(ref.queueEntryId),
              ",\"source_dm_id\":", IntText(ref.sourceDmId), tail, "}");
  }

  lemma Regrouped(a: string, b: string, c: string, d: string, e: string, f: string, g: string, h: string)
    ensures a + b + c + d + e + f + g + h == a + b + (c + d + (e + f + (g + h)))
  {
  }

  /** The text stored for provenance reads back as that provenance, whatever the peer is called. So
      no two references are stored as one text. */
  lemma StoredRefReadsBack(ref: SourceRef)
    ensures ReadRef(SourceRefText(ref)) == Some(ref)
  {
    TextIs(ref);
    var peer := PeerText(ref.sourcePeer);
    var dm := ",\"source_dm_id\":" + IntText(ref.sourceDmId) + peer;
    var entry := ",\"queue_entry_id\":" + IntText(ref.queueEntryId) + dm;
    FieldReadsBack("{\"queue_claim_fence\":", ref.queueClaimFence, entry);
    FieldReadsBack(",\"queue_entry_id\":", ref.queueEntryId, dm);
    FieldReadsBack(",\"source_dm_id\":", ref.sourceDmId, peer);
    PeerReadsBack(ref.sourcePeer);
  }
}
