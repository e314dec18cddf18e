/** Remembered peers: which certificate each host is pinned to, and who may
    connect. */
module Trusting {
  import opened Prelude

  /** A SHA-256 digest. */
  type Fingerprint = b: seq<byte> | |b| == 32 witness seq(32, _ => 0)

  datatype PeerRecord = PeerRecord(host: Option<string>, fingerprint: string)

  // ---- Fingerprints as text ----

  const HEX_DIGITS := "0123456789abcdef"

  function DigitValue(c: char): Option<nat> {
    if '0' <= c <= '9' then Some(c as int - '0' as int)
    else if 'a' <= c <= 'f' then Some(c as int - 'a' as int + 10)
    else if 'A' <= c <= 'F' then Some(c as int - 'A' as int + 10)
    else None
  }

  function HexOf(bytes: seq<byte>): string {
    if bytes == [] then ""
    else [HEX_DIGITS[bytes[0] / 16], HEX_DIGITS[bytes[0] % 16]] + HexOf(bytes[1..])
  }

  /** Two characters as one byte. The library routine also takes a plus sign in
      front of a single digit. */
  function ParseByte(high: char, low: char): Option<byte> {
    match (DigitValue(high), DigitValue(low))
    case (Some(h), Some(l)) => Some(h * 16 + l)
    case (None, Some(l)) => if high == '+' then Some(l) else None
    case (_, None) => None
  }

  function ParseBytes(hex: string): Option<seq<byte>>
    requires |hex| % 2 == 0
  {
    if hex == "" then Some([])
    else match (ParseByte(hex[0], hex[1]), ParseBytes(hex[2..]))
         case (Some(b), Some(rest)) => Some([b] + rest)
         case _ => None
  }

  lemma {:induction false} ParsedLength(hex: string)
    requires |hex| % 2 == 0 && ParseBytes(hex).Some?
    ensures |ParseBytes(hex).value| * 2 == |hex|
  {
    if hex == "" {
    } else {
      ParsedLength(hex[2..]);
    }
  }

  function ParseFingerprint(hex: string): Option<Fingerprint> {
    if |hex| != 64 then None else
    match ParseBytes(hex)
    case None => None
    case Some(bytes) => ParsedLength(hex); Some(bytes)
  }

  /** A stored fingerprint reads back as itself. */
  lemma {:induction false} HexRoundTrip(bytes: seq<byte>)
    ensures |HexOf(bytes)| == 2 * |bytes| && ParseBytes(HexOf(bytes)) == Some(bytes)
  {
    hide ParseByte;
    if bytes == [] {
    } else {
      HexRoundTrip(bytes[1..]);
      ByteRoundTrip(bytes[0]);
      assert HexOf(bytes)[2..] == HexOf(bytes[1..]);
      assert [bytes[0]] + bytes[1..] == bytes;
    }
  }

  lemma ByteRoundTrip(b: byte)
    ensures ParseByte(HEX_DIGITS[b / 16], HEX_DIGITS[b % 16]) == Some(b)
  {
    DigitRoundTrip(b / 16);
    DigitRoundTrip(b % 16);
  }

  /** The number some bytes spell, and the one some hexadecimal digits do, both with
      the first one counting most. */
  function Number(bytes: seq<byte>): nat {
    if bytes == [] then 0 else Number(bytes[..|bytes| - 1]) * 256 + bytes[|bytes| - 1]
  }

  function NumberOfDigits(text: string): nat {
    if text == "" then 0
    else NumberOfDigits(text[..|text| - 1]) * 16 + OkDigit(text[|text| - 1])
  }

  function OkDigit(c: char): nat {
    if DigitValue(c).Some? then DigitValue(c).value else 0
  }

  lemma {:induction false} HexOfMore(bytes: seq<byte>, b: byte)
    ensures HexOf(bytes + [b]) == HexOf(bytes) + HexOf([b])
  {
    if bytes == [] {
    } else {
      HexOfMore(bytes[1..], b);
      assert (bytes + [b])[1..] == bytes[1..] + [b];
      var pair, later := [HEX_DIGITS[bytes[0] / 16], HEX_DIGITS[bytes[0] % 16]], HexOf(bytes[1..]);
      assert HexOf(bytes) == pair + later;
      assert pair + (later + HexOf([b])) == (pair + later) + HexOf([b]);
    }
  }

  /** The text spells the same number as the bytes, so no two digits or bytes are
      the wrong way round. */
  lemma {:induction false} HexSpellsTheNumber(bytes: seq<byte>)
    ensures NumberOfDigits(HexOf(bytes)) == Number(bytes)
  {
    if bytes == [] {
    } else {
      var front, b := bytes[..|bytes| - 1], bytes[|bytes| - 1];
      assert bytes == front + [b];
      HexOfMore(front, b);
      HexSpellsTheNumber(front);
      TwoMoreDigits(HexOf(front), b);
    }
  }

  lemma TwoMoreDigits(text: string, b: byte)
    ensures NumberOfDigits(text + HexOf([b])) == NumberOfDigits(text) * 256 + b
  {
    assert [b][1..] == [] && HexOf([b]) == [HEX_DIGITS[b / 16], HEX_DIGITS[b % 16]];
    var more := text + HexOf([b]);
    DigitRoundTrip(b / 16);
    DigitRoundTrip(b % 16);
    assert more[..|more| - 1] == text + [HEX_DIGITS[b / 16]];
    assert more[..|more| - 1][..|text|] == text;
  }

  lemma DigitRoundTrip(d: nat)
    requires d < 16
    ensures DigitValue(HEX_DIGITS[d]) == Some(d)
  {
  }

  /** Whatever reads as bytes is their text in one letter case or another, leaving
      plus signs aside; a fingerprint's takes exactly 64 characters. */
  lemma {:induction false} ReadsOnlyHex(hex: string)
    requires |hex| % 2 == 0 && '+' !in hex
    ensures ParseBytes(hex).Some? ==> HexOf(ParseBytes(hex).value) == LoweredHex(hex)
    ensures ParseFingerprint(hex).Some? ==> |hex| == 64
  {
    hide ParseByte;
    if hex == "" {
    } else {
      ReadsOnlyHex(hex[2..]);
      if ParseBytes(hex).Some? {
        ReadsOnlyDigits(hex[0], hex[1]);
        assert LoweredHex(hex) == LoweredHex(hex[..2]) + LoweredHex(hex[2..]);
        assert ParseBytes(hex).value[1..] == ParseBytes(hex[2..]).value;
      }
    }
  }

  function LoweredHex(s: string): string {
    seq(|s|, i requires 0 <= i < |s| => if 'A' <= s[i] <= 'F' then s[i] - 'A' + 'a' else s[i])
  }

  lemma ReadsOnlyDigits(high: char, low: char)
    requires high != '+' && ParseByte(high, low).Some?
    ensures var b := ParseByte(high, low).value;
            [HEX_DIGITS[b / 16], HEX_DIGITS[b % 16]] == LoweredHex([high, low])
  {
    hide DigitValue;
    DigitLowers(high);
    DigitLowers(low);
    TwoDigits(DigitValue(high).value, DigitValue(low).value);
  }

  lemma TwoDigits(h: nat, l: nat)
    requires h < 16 && l < 16
    ensures (h * 16 + l) / 16 == h && (h * 16 + l) % 16 == l
  {
  }

  lemma DigitLowers(c: char)
    requires DigitValue(c).Some?
    ensures DigitValue(c).value < 16 && HEX_DIGITS[DigitValue(c).value] == LoweredHex([c])[0]
  {
  }

  lemma HexIsInjective(f: Fingerprint, g: Fingerprint)
    ensures ParseFingerprint(HexOf(f)) == Some(f)
    ensures HexOf(f) == HexOf(g) <==> f == g
  {
    HexRoundTrip(f);
    HexRoundTrip(g);
  }

  // ---- The store's operations ----

  function Retain(peers: seq<PeerRecord>, keep: PeerRecord -> bool): seq<PeerRecord> {
    if peers == [] then []
    else Retain(peers[..|peers| - 1], keep) + if keep(peers[|peers| - 1]) then [peers[|peers| - 1]] else []
  }

  /** The newest record of each host, and every record without one, in order. */
  function KeepNewest(peers: seq<PeerRecord>): seq<PeerRecord> {
    if peers == [] then []
    else (if NamesHost(peers[1..], peers[0].host) then [] else [peers[0]]) + KeepNewest(peers[1..])
  }

  /** A host that one of these records claims; no host is never claimed. */
  predicate NamesHost(peers: seq<PeerRecord>, host: Option<string>) {
    host.Some? && exists r :: r in peers && r.host == host
  }

  function First(peers: seq<PeerRecord>, wanted: PeerRecord -> bool): (i: nat)
    ensures i <= |peers|
    ensures i < |peers| ==> wanted(peers[i])
    ensures forall j | 0 <= j < i :: !wanted(peers[j])
  {
    if peers == [] || wanted(peers[0]) then 0 else 1 + First(peers[1..], wanted)
  }

  function WithoutRivals(peers: seq<PeerRecord>, hex: string, host: Option<string>): seq<PeerRecord> {
    if host.None? then peers
    else Retain(peers, (r: PeerRecord) => r.fingerprint == hex || r.host != host)
  }

  function Accepting(peers: seq<PeerRecord>, fp: Fingerprint, host: Option<string>): seq<PeerRecord> {
    var hex := HexOf(fp);
    var kept := WithoutRivals(peers, hex, host);
    var i := First(kept, (r: PeerRecord) => r.fingerprint == hex);
    if i == |kept| then kept + [PeerRecord(host, hex)]
    else if host.Some? then kept[i := kept[i].(host := host)]
    else kept
  }

  predicate Selected(r: PeerRecord, selector: string) {
    r.host == Some(selector) || selector <= r.fingerprint
  }

  function Removing(peers: seq<PeerRecord>, selector: string): seq<PeerRecord> {
    Retain(peers, (r: PeerRecord) => !Selected(r, selector))
  }

  function PinnedForHost(peers: seq<PeerRecord>, host: string): Option<Fingerprint> {
    var i := First(peers, (r: PeerRecord) => r.host == Some(host));
    if i < |peers| then ParseFingerprint(peers[i].fingerprint) else None
  }

  /** Whether dialling `host` goes on when it presents `fp`. */
  predicate AuthorizesServer(peers: seq<PeerRecord>, host: string, fp: Fingerprint) {
    PinnedForHost(peers, host) == None || PinnedForHost(peers, host) == Some(fp)
  }

  // ---- One record per host and per fingerprint ----

  predicate DistinctFingerprints(peers: seq<PeerRecord>) {
    forall i, j | 0 <= i < j < |peers| :: peers[i].fingerprint != peers[j].fingerprint
  }

  predicate OnePerHost(peers: seq<PeerRecord>) {
    forall i, j | 0 <= i < j < |peers| :: peers[i].host.Some? ==> peers[i].host != peers[j].host
  }

  lemma {:induction false} RetainMembers(peers: seq<PeerRecord>, keep: PeerRecord -> bool)
    ensures forall r :: r in Retain(peers, keep) <==> r in peers && keep(r)
  {
    if peers == [] {
    } else {
      var front, last := peers[..|peers| - 1], peers[|peers| - 1];
      RetainMembers(front, keep);
      assert peers == front + [last];
    }
  }

  lemma {:induction false} RetainKeeps(peers: seq<PeerRecord>, keep: PeerRecord -> bool)
    ensures forall r :: r in Retain(peers, keep) <==> r in peers && keep(r)
    ensures DistinctFingerprints(peers) ==> DistinctFingerprints(Retain(peers, keep))
    ensures OnePerHost(peers) ==> OnePerHost(Retain(peers, keep))
  {
    RetainMembers(peers, keep);
    if peers == [] {
    } else {
      var front, last := peers[..|peers| - 1], peers[|peers| - 1];
      RetainKeeps(front, keep);
      assert peers == front + [last];
      if DistinctFingerprints(peers) {
        LastIsDistinct(front, last);
        AddingDistinct(Retain(front, keep), last);
      }
      if OnePerHost(peers) {
        LastHasItsOwnHost(front, last);
        AddingItsOwnHost(Retain(front, keep), last);
      }
    }
  }

  lemma LastIsDistinct(front: seq<PeerRecord>, last: PeerRecord)
    requires DistinctFingerprints(front + [last])
    ensures DistinctFingerprints(front) && forall r | r in front :: r.fingerprint != last.fingerprint
  {
    var peers := front + [last];
    forall k | 0 <= k < |front| ensures front[k] == peers[k] && front[k].fingerprint != last.fingerprint {
      assert peers[|front|] == last;
    }
  }

  lemma AddingDistinct(front: seq<PeerRecord>, last: PeerRecord)
    requires DistinctFingerprints(front) && forall r | r in front :: r.fingerprint != last.fingerprint
    ensures DistinctFingerprints(front + [last])
  {
    assert forall k | 0 <= k < |front| :: front[k] in front;
  }

  lemma LastHasItsOwnHost(front: seq<PeerRecord>, last: PeerRecord)
    requires OnePerHost(front + [last])
    ensures OnePerHost(front) && forall r | r in front && r.host.Some? :: r.host != last.host
  {
    var peers := front + [last];
    forall k | 0 <= k < |front| ensures front[k] == peers[k] && (front[k].host.Some? ==> front[k].host != last.host) {
      assert peers[|front|] == last;
    }
  }

  lemma AddingItsOwnHost(front: seq<PeerRecord>, last: PeerRecord)
    requires OnePerHost(front) && forall r | r in front && r.host.Some? :: r.host != last.host
    ensures OnePerHost(front + [last])
  {
    assert forall k | 0 <= k < |front| :: front[k] in front;
  }

  /** The pass drops no host altogether and invents none. */
  lemma {:induction false} KeepNewestNames(peers: seq<PeerRecord>)
    ensures forall r | r in KeepNewest(peers) :: r in peers
    ensures forall host :: NamesHost(KeepNewest(peers), host) <==> NamesHost(peers, host)
  {
    if peers == [] {
    } else {
      var rest := peers[1..];
      KeepNewestNames(rest);
      assert peers == [peers[0]] + rest;
      forall host ensures NamesHost(KeepNewest(peers), host) <==> NamesHost(peers, host) {
        assert NamesHost(peers, host) <==> host.Some? && (peers[0].host == host || NamesHost(rest, host));
        if NamesHost(rest, peers[0].host) {
          assert KeepNewest(peers) == KeepNewest(rest);
        } else {
          assert KeepNewest(peers) == [peers[0]] + KeepNewest(rest);
        }
      }
    }
  }

  lemma {:induction false} KeepNewestKeeps(peers: seq<PeerRecord>)
    ensures OnePerHost(KeepNewest(peers))
    ensures DistinctFingerprints(peers) ==> DistinctFingerprints(KeepNewest(peers))
  {
    if peers == [] {
    } else {
      var rest := peers[1..];
      KeepNewestKeeps(rest);
      KeepNewestNames(rest);
      forall r | r in KeepNewest(rest)
        ensures DistinctFingerprints(peers) ==> r.fingerprint != peers[0].fingerprint
        ensures peers[0].host.Some? && peers[0].host == r.host ==> NamesHost(rest, peers[0].host)
      {
        var k :| 0 <= k < |rest| && rest[k] == r;
        assert peers[k + 1] == r;
      }
    }
  }

  lemma {:induction false} NothingToDrop(peers: seq<PeerRecord>)
    requires OnePerHost(peers)
    ensures KeepNewest(peers) == peers
  {
    if peers == [] {
    } else {
      var rest := peers[1..];
      NothingToDrop(rest);
      forall r | r in rest ensures peers[0].host.Some? ==> r.host != peers[0].host {
        var k :| 0 <= k < |rest| && rest[k] == r;
        assert peers[k + 1] == r;
      }
    }
  }

  /** Each host keeps exactly the last of its records. */
  lemma {:induction false} KeepsTheLastRecord(peers: seq<PeerRecord>, i: nat)
    requires i < |peers| && DistinctFingerprints(peers)
    ensures peers[i] in KeepNewest(peers) <==> !NamesHost(peers[i + 1..], peers[i].host)
  {
    var rest := peers[1..];
    KeepNewestNames(rest);
    if i == 0 {
      forall r | r in rest ensures r.fingerprint != peers[0].fingerprint {
        var k :| 0 <= k < |rest| && rest[k] == r;
        assert peers[k + 1] == r;
      }
    } else {
      KeepsTheLastRecord(rest, i - 1);
      assert rest[i..] == peers[i + 1..];
      assert rest[i - 1] == peers[i];
    }
  }

  /** The record at `i` is the last one of its host, or of no host. */
  predicate IsNewest(peers: seq<PeerRecord>, i: nat)
    requires i < |peers|
  {
    !NamesHost(peers[i + 1..], peers[i].host)
  }

  /** Increasing positions: those of each host's last record, and of every record
      without a host. */
  ghost predicate NewestAt(peers: seq<PeerRecord>, ks: seq<nat>) {
    && (forall i, j | 0 <= i < j < |ks| :: ks[i] < ks[j])
    && (forall k | k in ks :: k < |peers|)
    && (forall i: nat | i < |peers| :: i in ks <==> IsNewest(peers, i))
  }

  function Pick(peers: seq<PeerRecord>, ks: seq<nat>): seq<PeerRecord>
    requires forall k | k in ks :: k < |peers|
  {
    seq(|ks|, j requires 0 <= j < |ks| => assert ks[j] in ks; peers[ks[j]])
  }

  /** The pass keeps exactly the last record of each host and those without one,
      whole and in the order they were in. */
  lemma {:induction false} KeepsTheNewestInOrder(peers: seq<PeerRecord>) returns (ks: seq<nat>)
    ensures NewestAt(peers, ks) && KeepNewest(peers) == Pick(peers, ks)
  {
    if peers == [] {
      ks := [];
    } else {
      var later := KeepsTheNewestInOrder(peers[1..]);
      var first: seq<nat> := if IsNewest(peers, 0) then [0] else [];
      ks := first + Later(later);
      NewestFromTheRest(peers, later);
      PickFromTheRest(peers, first, later);
    }
  }

  /** Positions in the rest of a sequence, as positions in the whole. */
  function Later(ks: seq<nat>): seq<nat> {
    seq(|ks|, j requires 0 <= j < |ks| => ks[j] + 1)
  }

  lemma NewestFromTheRest(peers: seq<PeerRecord>, later: seq<nat>)
    requires peers != [] && NewestAt(peers[1..], later)
    ensures NewestAt(peers, (if IsNewest(peers, 0) then [0] else []) + Later(later))
  {
    hide IsNewest;
    var first: seq<nat> := if IsNewest(peers, 0) then [0] else [];
    var ks := first + Later(later);
    forall i: nat ensures i in ks <==> i in first || (i > 0 && i - 1 in later) {
      NextInLater(later, i);
    }
    forall i: nat | 0 < i < |peers| ensures IsNewest(peers, i) == IsNewest(peers[1..], i - 1) {
      NewestInTheRest(peers, i);
    }
  }

  lemma NewestInTheRest(peers: seq<PeerRecord>, i: nat)
    requires 0 < i < |peers|
    ensures IsNewest(peers, i) == IsNewest(peers[1..], i - 1)
  {
    assert peers[1..][i..] == peers[i + 1..];
  }

  lemma PickFromTheRest(peers: seq<PeerRecord>, first: seq<nat>, later: seq<nat>)
    requires peers != [] && (first == [0] || first == [])
    requires (forall k | k in later :: k < |peers| - 1) && forall k | k in first + Later(later) :: k < |peers|
    ensures Pick(peers, first + Later(later)) == Pick(peers, first) + Pick(peers[1..], later)
  {
    forall j | 0 <= j < |later| ensures later[j] + 1 < |peers| && peers[later[j] + 1] == peers[1..][later[j]] {
      assert later[j] in later;
    }
  }

  lemma NextInLater(ks: seq<nat>, i: nat)
    ensures i in Later(ks) <==> i > 0 && i - 1 in ks
  {
    if i > 0 && i - 1 in ks {
      var j :| 0 <= j < |ks| && ks[j] == i - 1;
      assert Later(ks)[j] == i;
    }
  }

  /** A host just accepted is claimed by that fingerprint's record alone. */
  lemma AcceptPins(peers: seq<PeerRecord>, fp: Fingerprint, host: Option<string>)
    requires DistinctFingerprints(peers)
    ensures var n := Accepting(peers, fp, host);
            && DistinctFingerprints(n) && (OnePerHost(peers) ==> OnePerHost(n))
            && (host.Some? ==> forall r | r in n && r.host == host :: r.fingerprint == HexOf(fp))
            && (exists r :: r in n && r.fingerprint == HexOf(fp) && (host.Some? ==> r.host == host))
  {
    var hex := HexOf(fp);
    var kept := WithoutRivals(peers, hex, host);
    if host.Some? {
      RetainKeeps(peers, (r: PeerRecord) => r.fingerprint == hex || r.host != host);
    }
    var i := First(kept, (r: PeerRecord) => r.fingerprint == hex);
    var n := Accepting(peers, fp, host);
    assert DistinctFingerprints(kept) && (OnePerHost(peers) ==> OnePerHost(kept));
    forall k | 0 <= k < |kept| ensures kept[k].fingerprint == hex <==> k == i {}
    if i < |kept| {
      assert n[i] in n && n[i].fingerprint == hex;
    } else {
      assert n[|kept|] in n;
    }
    forall k | 0 <= k < |kept| && host.Some? && kept[k].host == host ensures k == i {
      assert kept[k] in kept;
    }
  }

  // ---- Any sequence of operations ----

  datatype Op = Load | Accepts(fp: Fingerprint, host: Option<string>) | Removes(selector: string)

  function Apply(peers: seq<PeerRecord>, op: Op): seq<PeerRecord> {
    match op
    case Load => KeepNewest(peers)
    case Accepts(fp, host) => Accepting(peers, fp, host)
    case Removes(selector) => Removing(peers, selector)
  }

  function ApplyAll(peers: seq<PeerRecord>, ops: seq<Op>): seq<PeerRecord>
    decreases |ops|
  {
    if ops == [] then peers else ApplyAll(Apply(peers, ops[0]), ops[1..])
  }

  lemma ApplyKeeps(peers: seq<PeerRecord>, op: Op)
    requires DistinctFingerprints(peers)
    ensures DistinctFingerprints(Apply(peers, op))
    ensures OnePerHost(peers) || op.Load? ==> OnePerHost(Apply(peers, op))
  {
    match op
    case Load => KeepNewestKeeps(peers);
    case Accepts(fp, host) => AcceptPins(peers, fp, host);
    case Removes(selector) => RetainKeeps(peers, (r: PeerRecord) => !Selected(r, selector));
  }

  /** From a store loaded with distinct fingerprints, whatever follows leaves one
      record per host and one per fingerprint. */
  lemma {:induction false} StoreStaysUnambiguous(peers: seq<PeerRecord>, ops: seq<Op>)
    requires DistinctFingerprints(peers) && (OnePerHost(peers) || (ops != [] && ops[0].Load?))
    ensures DistinctFingerprints(ApplyAll(peers, ops)) && OnePerHost(ApplyAll(peers, ops))
    decreases |ops|
  {
    if ops == [] {
    } else {
      ApplyKeeps(peers, ops[0]);
      StoreStaysUnambiguous(Apply(peers, ops[0]), ops[1..]);
    }
  }

  /** The operation speaks of the host or of the fingerprint. */
  predicate Touches(op: Op, host: string, fp: Fingerprint) {
    match op
    case Load => false
    case Accepts(f, h) => h == Some(host) || (f == fp && h.Some?)
    case Removes(selector) => selector == host || selector <= HexOf(fp)
  }

  lemma UntouchedStays(peers: seq<PeerRecord>, op: Op, host: string, fp: Fingerprint)
    requires DistinctFingerprints(peers) && OnePerHost(peers) && !Touches(op, host, fp)
    requires PeerRecord(Some(host), HexOf(fp)) in peers
    ensures PeerRecord(Some(host), HexOf(fp)) in Apply(peers, op)
  {
    var pin := PeerRecord(Some(host), HexOf(fp));
    match op
    case Load => NothingToDrop(peers);
    case Accepts(f, h) =>
      HexIsInjective(f, fp);
      var hex := HexOf(f);
      var kept := WithoutRivals(peers, hex, h);
      if h.Some? {
        RetainKeeps(peers, (r: PeerRecord) => r.fingerprint == hex || r.host != h);
      }
      assert pin in kept;
      var k :| 0 <= k < |kept| && kept[k] == pin;
      assert Apply(peers, op)[k] == pin;
    case Removes(selector) => RetainKeeps(peers, (r: PeerRecord) => !Selected(r, selector));
  }

  lemma {:induction false} UntouchedStaysAll(peers: seq<PeerRecord>, ops: seq<Op>, host: string, fp: Fingerprint)
    requires DistinctFingerprints(peers) && OnePerHost(peers)
    requires forall op | op in ops :: !Touches(op, host, fp)
    requires PeerRecord(Some(host), HexOf(fp)) in peers
    ensures PeerRecord(Some(host), HexOf(fp)) in ApplyAll(peers, ops)
    decreases |ops|
  {
    if ops == [] {
    } else {
      assert ops[0] in ops;
      ApplyKeeps(peers, ops[0]);
      UntouchedStays(peers, ops[0], host, fp);
      UntouchedStaysAll(Apply(peers, ops[0]), ops[1..], host, fp);
    }
  }

  /** Once a certificate is accepted for a host, dialling that host goes on with
      that certificate and with no other, until an operation speaks of either. */
  lemma AcceptedPinHolds(peers: seq<PeerRecord>, host: string, fp: Fingerprint, ops: seq<Op>, shown: Fingerprint)
    requires DistinctFingerprints(peers) && OnePerHost(peers)
    requires forall op | op in ops :: !Touches(op, host, fp)
    ensures var later := ApplyAll(Accepting(peers, fp, Some(host)), ops);
            PinnedForHost(later, host) == Some(fp) && (AuthorizesServer(later, host, shown) <==> shown == fp)
  {
    var accepted := Accepting(peers, fp, Some(host));
    AcceptPins(peers, fp, Some(host));
    var r :| r in accepted && r.fingerprint == HexOf(fp) && r.host == Some(host);
    assert r == PeerRecord(Some(host), HexOf(fp));
    UntouchedStaysAll(accepted, ops, host, fp);
    StoreStaysUnambiguous(accepted, ops);
    PinIsFound(ApplyAll(accepted, ops), host, fp);
  }

  lemma PinIsFound(peers: seq<PeerRecord>, host: string, fp: Fingerprint)
    requires OnePerHost(peers) && PeerRecord(Some(host), HexOf(fp)) in peers
    ensures PinnedForHost(peers, host) == Some(fp)
  {
    HexIsInjective(fp, fp);
    var k :| 0 <= k < |peers| && peers[k] == PeerRecord(Some(host), HexOf(fp));
    var i := First(peers, (r: PeerRecord) => r.host == Some(host));
    assert i == k;
  }

  // ---- Surviving a restart ----

  /** The records in memory, and those the file on disk holds. */
  datatype Store = Store(peers: seq<PeerRecord>, stored: seq<PeerRecord>)
  {
    function Save(writable: bool): Store {
      if writable then Store(peers, peers) else this
    }

    function Accept(fp: Fingerprint, host: Option<string>, writable: bool): Store {
      Store(Accepting(peers, fp, host), stored).Save(writable)
    }

    /** The file is only written when a record went. */
    function Remove(selector: string, writable: bool): Store {
      var n := Store(Removing(peers, selector), stored);
      if |n.peers| != |peers| then n.Save(writable) else n
    }

    /** Reading the file again, and rewriting it when records were dropped. */
    function Restart(writable: bool): Store {
      var n := Store(KeepNewest(stored), stored);
      if |n.peers| != |stored| then n.Save(writable) else n
    }
  }

  /** An operation, and whether the file can be written while it happens. */
  datatype SavedOp = SavedOp(op: Op, writable: bool)

  function Persist(s: Store, o: SavedOp): Store {
    match o.op
    case Load => s.Restart(o.writable)
    case Accepts(fp, host) => s.Accept(fp, host, o.writable)
    case Removes(selector) => s.Remove(selector, o.writable)
  }

  function PersistAll(s: Store, os: seq<SavedOp>): Store
    decreases |os|
  {
    if os == [] then s else PersistAll(Persist(s, os[0]), os[1..])
  }

  function Unsaved(os: seq<SavedOp>): seq<Op> {
    seq(|os|, i requires 0 <= i < |os| => os[i].op)
  }

  lemma {:induction false} RetainNotLonger(peers: seq<PeerRecord>, keep: PeerRecord -> bool)
    ensures |Retain(peers, keep)| <= |peers|
    ensures |Retain(peers, keep)| == |peers| ==> Retain(peers, keep) == peers
  {
    if peers == [] {
    } else {
      RetainNotLonger(peers[..|peers| - 1], keep);
    }
  }

  /** One operation keeps memory and disk alike, if the file can be written. */
  lemma PersistKeepsAlike(peers: seq<PeerRecord>, o: SavedOp)
    requires OnePerHost(peers) && o.writable
    ensures Persist(Store(peers, peers), o) == Store(Apply(peers, o.op), Apply(peers, o.op))
  {
    match o.op
    case Load => NothingToDrop(peers);
    case Accepts(_, _) =>
    case Removes(selector) => RetainNotLonger(peers, (r: PeerRecord) => !Selected(r, selector));
  }

  /** As long as the file can be written, restarts change nothing: every run with
      restarts from the file ends with what the operations alone lead to, in
      memory and on disk. */
  lemma {:induction false} RestartsAreHarmless(peers: seq<PeerRecord>, os: seq<SavedOp>)
    requires DistinctFingerprints(peers) && OnePerHost(peers)
    requires forall o | o in os :: o.writable
    ensures var n := ApplyAll(peers, Unsaved(os)); PersistAll(Store(peers, peers), os) == Store(n, n)
    decreases |os|
  {
    if os == [] {
    } else {
      assert os[0] in os;
      assert Unsaved(os)[1..] == Unsaved(os[1..]);
      PersistKeepsAlike(peers, os[0]);
      ApplyKeeps(peers, os[0].op);
      RestartsAreHarmless(Apply(peers, os[0].op), os[1..]);
    }
  }

  // ---- Who may connect ----

  datatype TrustDecision = Trusted | TrustOnFirstUse | NotAllowed | FingerprintMismatch

  /** A peer's identity: the first eight bytes of its fingerprint. */
  function PeerIdOf(fp: Fingerprint): seq<byte> {
    fp[..8]
  }

  predicate HasId(r: PeerRecord, id: seq<byte>) {
    ParseFingerprint(r.fingerprint).Some? && PeerIdOf(ParseFingerprint(r.fingerprint).value) == id
  }

  function AllowList(peers: seq<PeerRecord>): set<seq<byte>> {
    set r | r in peers && ParseFingerprint(r.fingerprint).Some? :: PeerIdOf(ParseFingerprint(r.fingerprint).value)
  }

  function PinnedFor(peers: seq<PeerRecord>, id: seq<byte>): Option<Fingerprint> {
    var i := First(peers, (r: PeerRecord) => HasId(r, id));
    if i < |peers| then ParseFingerprint(peers[i].fingerprint) else None
  }

  function Evaluate(allowed: set<seq<byte>>, pinned: Option<Fingerprint>, id: seq<byte>, fp: Fingerprint):
    TrustDecision
  {
    if id !in allowed then NotAllowed
    else match pinned
         case None => TrustOnFirstUse
         case Some(f) => if f == fp then Trusted else FingerprintMismatch
  }

  function DecideInbound(peers: seq<PeerRecord>, fp: Fingerprint): TrustDecision {
    var id := PeerIdOf(fp);
    Evaluate(AllowList(peers), PinnedFor(peers, id), id, fp)
  }

  /** Exactly who gets in without being asked about: a fingerprint on record that
      is the first there with its identity. Any other with that identity is a
      mismatch, and nobody else is allowed; an allowed peer is never unpinned. */
  lemma InboundExactly(peers: seq<PeerRecord>, fp: Fingerprint)
    ensures var i := First(peers, (r: PeerRecord) => HasId(r, PeerIdOf(fp)));
            DecideInbound(peers, fp) ==
            if i == |peers| then NotAllowed
            else if ParseFingerprint(peers[i].fingerprint) == Some(fp) then Trusted
            else FingerprintMismatch
  {
    var id := PeerIdOf(fp);
    var i := First(peers, (r: PeerRecord) => HasId(r, id));
    if i < |peers| {
      assert peers[i] in peers && HasId(peers[i], id);
    }
    forall r | r in peers && HasId(r, id) ensures i < |peers| {
      var k :| 0 <= k < |peers| && peers[k] == r;
      assert i <= k;
    }
  }

  /** Nobody is let in, or turned away as an impostor, but by the first eight bytes
      of a fingerprint on record; being let in takes all of them. */
  lemma InboundGoesByEightBytes(peers: seq<PeerRecord>, fp: Fingerprint)
    ensures DecideInbound(peers, fp) == NotAllowed <==>
            forall r | r in peers && ParseFingerprint(r.fingerprint).Some? ::
              ParseFingerprint(r.fingerprint).value[..8] != fp[..8]
    ensures DecideInbound(peers, fp) == Trusted ==> exists r :: r in peers && ParseFingerprint(r.fingerprint) == Some(fp)
    ensures DecideInbound(peers, fp) != TrustOnFirstUse
  {
    InboundExactly(peers, fp);
    var i := First(peers, (r: PeerRecord) => HasId(r, PeerIdOf(fp)));
    if i < |peers| {
      assert peers[i] in peers && HasId(peers[i], PeerIdOf(fp));
    } else {
      forall r | r in peers ensures !HasId(r, PeerIdOf(fp)) {
        var k :| 0 <= k < |peers| && peers[k] == r;
      }
    }
  }

  /** A peer just accepted is trusted, as long as no record of another
      fingerprint shares its identity. */
  lemma AcceptedIsTrusted(peers: seq<PeerRecord>, fp: Fingerprint, host: Option<string>)
    requires DistinctFingerprints(peers)
    requires forall r | r in peers && HasId(r, PeerIdOf(fp)) :: ParseFingerprint(r.fingerprint) == Some(fp)
    ensures DecideInbound(Accepting(peers, fp, host), fp) == Trusted
  {
    var n := Accepting(peers, fp, host);
    AcceptPins(peers, fp, host);
    HexIsInjective(fp, fp);
    InboundExactly(n, fp);
    var r :| r in n && r.fingerprint == HexOf(fp);
    assert HasId(r, PeerIdOf(fp));
    forall q | q in n && HasId(q, PeerIdOf(fp)) ensures ParseFingerprint(q.fingerprint) == Some(fp) {
      AcceptAddsNoOther(peers, fp, host, q);
    }
  }

  lemma AcceptAddsNoOther(peers: seq<PeerRecord>, fp: Fingerprint, host: Option<string>, q: PeerRecord)
    requires q in Accepting(peers, fp, host)
    ensures q.fingerprint == HexOf(fp) || q in peers
  {
    if host.Some? {
      RetainKeeps(peers, (r: PeerRecord) => r.fingerprint == HexOf(fp) || r.host != host);
    }
  }

  // ---- Exactly what each operation leaves ----

  /** Increasing positions: all those of the records wanted. */
  ghost predicate KeptAt(peers: seq<PeerRecord>, keep: PeerRecord -> bool, ks: seq<nat>) {
    && (forall i, j | 0 <= i < j < |ks| :: ks[i] < ks[j])
    && (forall k | k in ks :: k < |peers|)
    && (forall i: nat | i < |peers| :: i in ks <==> keep(peers[i]))
  }

  lemma {:induction false} RetainsInOrder(peers: seq<PeerRecord>, keep: PeerRecord -> bool) returns (ks: seq<nat>)
    ensures KeptAt(peers, keep, ks) && Retain(peers, keep) == Pick(peers, ks)
  {
    hide KeptAt;
    if peers == [] {
      ks := [];
      assert KeptAt(peers, keep, ks) by {
        NoneKept(keep);
      }
    } else {
      var front := peers[..|peers| - 1];
      var before := RetainsInOrder(front, keep);
      var last: seq<nat> := if keep(peers[|front|]) then [|front|] else [];
      ks := before + last;
      OneMoreKept(peers, keep, before);
    }
  }

  lemma NoneKept(keep: PeerRecord -> bool)
    ensures KeptAt([], keep, [])
  {
  }

  lemma OneMoreKept(peers: seq<PeerRecord>, keep: PeerRecord -> bool, before: seq<nat>)
    requires peers != [] && KeptAt(peers[..|peers| - 1], keep, before)
    ensures var last: seq<nat> := if keep(peers[|peers| - 1]) then [|peers| - 1] else [];
            && KeptAt(peers, keep, before + last)
            && Pick(peers, before + last)
               == Pick(peers[..|peers| - 1], before) + if last == [] then [] else [peers[|peers| - 1]]
  {
    var last: seq<nat> := if keep(peers[|peers| - 1]) then [|peers| - 1] else [];
    var ks := before + last;
    assert forall i: nat :: i in ks <==> i in before || i in last;
    assert forall j | 0 <= j < |before| :: before[j] in before;
    PickFromTheFront(peers, before);
  }

  lemma PickFromTheFront(peers: seq<PeerRecord>, ks: seq<nat>)
    requires peers != [] && forall k | k in ks :: k < |peers| - 1
    ensures Pick(peers, ks) == Pick(peers[..|peers| - 1], ks)
  {
    forall j | 0 <= j < |ks| ensures ks[j] < |peers| - 1 && peers[ks[j]] == peers[..|peers| - 1][ks[j]] {
      assert ks[j] in ks;
    }
  }

  /** Removing drops exactly the records of that host and those whose fingerprint
      begins with the selector; the rest stay, whole and in order. */
  lemma RemovesExactly(peers: seq<PeerRecord>, selector: string) returns (ks: seq<nat>)
    ensures KeptAt(peers, (r: PeerRecord) => r.host != Some(selector) && !(selector <= r.fingerprint), ks)
    ensures Removing(peers, selector) == Pick(peers, ks)
    ensures forall r :: r in Removing(peers, selector) <==>
                        r in peers && r.host != Some(selector) && !(selector <= r.fingerprint)
  {
    ks := RetainsInOrder(peers, (r: PeerRecord) => !Selected(r, selector));
    RetainMembers(peers, (r: PeerRecord) => !Selected(r, selector));
  }

  ghost predicate Recorded(peers: seq<PeerRecord>, hex: string) {
    exists r :: r in peers && r.fingerprint == hex
  }

  /** Accepting changes only what claims the host and what has the fingerprint:
      other claims to the host go, and the fingerprint's record names the host from
      then on, or is added, or is as it was when no host is given. */
  lemma AcceptsExactly(peers: seq<PeerRecord>, fp: Fingerprint, host: Option<string>)
    requires DistinctFingerprints(peers)
    ensures forall r: PeerRecord | r.fingerprint != HexOf(fp) ::
              r in Accepting(peers, fp, host) <==> r in peers && (host.None? || r.host != host)
    ensures host.Some? ==> PeerRecord(host, HexOf(fp)) in Accepting(peers, fp, host)
    ensures host.None? ==>
              Accepting(peers, fp, host)
              == if Recorded(peers, HexOf(fp)) then peers else peers + [PeerRecord(None, HexOf(fp))]
  {
    var hex := HexOf(fp);
    var kept := WithoutRivals(peers, hex, host);
    if host.Some? {
      RetainMembers(peers, (r: PeerRecord) => r.fingerprint == hex || r.host != host);
    }
    var i := First(kept, (r: PeerRecord) => r.fingerprint == hex);
    var n := Accepting(peers, fp, host);
    forall r: PeerRecord | r.fingerprint != hex ensures r in n <==> r in kept {
      MembersApartFrom(kept, n, i, r);
    }
    if host.Some? {
      assert n[i] == PeerRecord(host, hex);
    } else {
      assert i < |peers| ==> peers[i] in peers;
    }
  }

  /** The records left keep their order, the fingerprint's own record its place, and
      a new one comes last. */
  lemma AcceptsInOrder(peers: seq<PeerRecord>, fp: Fingerprint, host: Option<string>) returns (ks: seq<nat>)
    requires DistinctFingerprints(peers)
    ensures KeptAt(peers, (r: PeerRecord) => r.fingerprint == HexOf(fp) || host.None? || r.host != host, ks)
    ensures var kept := Pick(peers, ks);
            var n := Accepting(peers, fp, host);
            && |kept| <= |n|
            && n[|kept|..] == (if Recorded(peers, HexOf(fp)) then [] else [PeerRecord(host, HexOf(fp))])
            && forall j | 0 <= j < |kept| ::
                 n[j] == if kept[j].fingerprint == HexOf(fp) && host.Some? then kept[j].(host := host) else kept[j]
  {
    var hex := HexOf(fp);
    ks := KeepsRivalsOut(peers, hex, host);
    var kept := Pick(peers, ks);
    var i := First(kept, (r: PeerRecord) => r.fingerprint == hex);
    KeptStayDistinct(peers, hex, host);
    if Recorded(peers, hex) {
      var r :| r in peers && r.fingerprint == hex;
      assert r in kept;
    } else {
      assert forall k | 0 <= k < |kept| :: kept[k] in kept;
    }
  }

  lemma KeepsRivalsOut(peers: seq<PeerRecord>, hex: string, host: Option<string>) returns (ks: seq<nat>)
    ensures KeptAt(peers, (r: PeerRecord) => r.fingerprint == hex || host.None? || r.host != host, ks)
    ensures WithoutRivals(peers, hex, host) == Pick(peers, ks)
  {
    if host.None? {
      ks := RetainsInOrder(peers, (r: PeerRecord) => true);
      RetainsAll(peers);
    } else {
      ks := RetainsInOrder(peers, (r: PeerRecord) => r.fingerprint == hex || r.host != host);
    }
  }

  lemma {:induction false} RetainsAll(peers: seq<PeerRecord>)
    ensures Retain(peers, (r: PeerRecord) => true) == peers
  {
    if peers == [] {
    } else {
      RetainsAll(peers[..|peers| - 1]);
    }
  }

  lemma KeptStayDistinct(peers: seq<PeerRecord>, hex: string, host: Option<string>)
    requires DistinctFingerprints(peers)
    ensures DistinctFingerprints(WithoutRivals(peers, hex, host))
    ensures forall r :: r in WithoutRivals(peers, hex, host) <==>
                        r in peers && (host.None? || r.fingerprint == hex || r.host != host)
  {
    if host.Some? {
      RetainKeeps(peers, (r: PeerRecord) => r.fingerprint == hex || r.host != host);
    }
  }

  /** Sequences alike but for one place, perhaps a new last one. */
  lemma MembersApartFrom(s: seq<PeerRecord>, t: seq<PeerRecord>, i: nat, r: PeerRecord)
    requires |s| <= |t| && i < |t| && |t| <= |s| + 1 && (|t| > |s| ==> i == |s|)
    requires forall k | 0 <= k < |t| && k != i :: k < |s| && t[k] == s[k]
    requires t[i] != r && (i < |s| ==> s[i] != r)
    ensures r in t <==> r in s
  {
    if r in s {
      var k :| 0 <= k < |s| && s[k] == r;
      assert t[k] == r;
    }
  }

  // ---- Being forgotten ----

  /** Nobody claims the host. */
  predicate Unclaimed(peers: seq<PeerRecord>, host: string) {
    forall r | r in peers :: r.host != Some(host)
  }

  /** No record stands for the fingerprint, however its text is spelled. */
  predicate Unknown(peers: seq<PeerRecord>, fp: Fingerprint) {
    forall r | r in peers :: ParseFingerprint(r.fingerprint) != Some(fp)
  }

  /** Dialling a host nobody claims goes on with any certificate; one that is
      claimed goes on with the certificate on record only, unless that record cannot
      be read. */
  lemma AuthorizesExactly(peers: seq<PeerRecord>, host: string, fp: Fingerprint)
    requires OnePerHost(peers)
    ensures AuthorizesServer(peers, host, fp) <==>
            forall r | r in peers && r.host == Some(host) ::
              ParseFingerprint(r.fingerprint) == None || ParseFingerprint(r.fingerprint) == Some(fp)
    ensures Unclaimed(peers, host) ==> PinnedForHost(peers, host) == None
  {
    var i := First(peers, (r: PeerRecord) => r.host == Some(host));
    if i < |peers| {
      assert peers[i] in peers;
      forall k | 0 <= k < |peers| && peers[k].host == Some(host) ensures k == i {}
    }
  }

  /** Only a fingerprint on record is let in unasked. */
  lemma UnknownIsNotTrusted(peers: seq<PeerRecord>, fp: Fingerprint)
    requires Unknown(peers, fp)
    ensures DecideInbound(peers, fp) != Trusted
  {
    InboundExactly(peers, fp);
    var i := First(peers, (r: PeerRecord) => HasId(r, PeerIdOf(fp)));
    assert i < |peers| ==> peers[i] in peers;
  }

  lemma AcceptedRecord(peers: seq<PeerRecord>, fp: Fingerprint, host: Option<string>, r: PeerRecord)
    requires r in Accepting(peers, fp, host)
    ensures r in peers || (r.host == host && r.fingerprint == HexOf(fp))
  {
    if host.Some? {
      RetainMembers(peers, (q: PeerRecord) => q.fingerprint == HexOf(fp) || q.host != host);
    }
  }

  lemma StaysForgottenOnce(peers: seq<PeerRecord>, op: Op, host: string, fp: Fingerprint)
    ensures Unclaimed(peers, host) && !(op.Accepts? && op.host == Some(host)) ==> Unclaimed(Apply(peers, op), host)
    ensures Unknown(peers, fp) && !(op.Accepts? && op.fp == fp) ==> Unknown(Apply(peers, op), fp)
  {
    match op
    case Load => KeepNewestNames(peers);
    case Accepts(f, h) =>
      HexIsInjective(f, fp);
      forall r | r in Accepting(peers, f, h) ensures r in peers || (r.host == h && r.fingerprint == HexOf(f)) {
        AcceptedRecord(peers, f, h, r);
      }
    case Removes(selector) => RetainMembers(peers, (r: PeerRecord) => !Selected(r, selector));
  }

  /** What is forgotten stays so until it is accepted again. */
  lemma {:induction false} StaysForgotten(peers: seq<PeerRecord>, ops: seq<Op>, host: string, fp: Fingerprint)
    ensures Unclaimed(peers, host) && (forall op | op in ops :: !(op.Accepts? && op.host == Some(host))) ==>
              Unclaimed(ApplyAll(peers, ops), host)
    ensures Unknown(peers, fp) && (forall op | op in ops :: !(op.Accepts? && op.fp == fp)) ==>
              Unknown(ApplyAll(peers, ops), fp)
    decreases |ops|
  {
    hide Unclaimed, Unknown, Apply;
    if ops == [] {
    } else {
      assert ops[0] in ops;
      StaysForgottenOnce(peers, ops[0], host, fp);
      StaysForgotten(Apply(peers, ops[0]), ops[1..], host, fp);
    }
  }

  /** A host removed by name is pinned to nothing, until it is accepted again. */
  lemma RemovedHostIsUnpinned(peers: seq<PeerRecord>, host: string, ops: seq<Op>, fp: Fingerprint)
    requires forall op | op in ops :: !(op.Accepts? && op.host == Some(host))
    ensures PinnedForHost(ApplyAll(Removing(peers, host), ops), host) == None
    ensures AuthorizesServer(ApplyAll(Removing(peers, host), ops), host, fp)
  {
    var _ := RemovesExactly(peers, host);
    StaysForgotten(Removing(peers, host), ops, host, fp);
    var later := ApplyAll(Removing(peers, host), ops);
    assert forall k | 0 <= k < |later| :: later[k] in later;
  }

  /** Every record that stands for the fingerprint is spelled as this program spells
      it. */
  predicate SpelledOurWay(peers: seq<PeerRecord>, fp: Fingerprint) {
    forall r | r in peers && ParseFingerprint(r.fingerprint) == Some(fp) :: r.fingerprint == HexOf(fp)
  }

  /** A certificate removed by its fingerprint is not let in unasked, until it is
      accepted again. */
  lemma RemovedFingerprintIsNotTrusted(peers: seq<PeerRecord>, fp: Fingerprint, ops: seq<Op>)
    requires SpelledOurWay(peers, fp) && forall op | op in ops :: !(op.Accepts? && op.fp == fp)
    ensures DecideInbound(ApplyAll(Removing(peers, HexOf(fp)), ops), fp) != Trusted
  {
    var _ := RemovesExactly(peers, HexOf(fp));
    StaysForgotten(Removing(peers, HexOf(fp)), ops, "", fp);
    UnknownIsNotTrusted(ApplyAll(Removing(peers, HexOf(fp)), ops), fp);
  }

  /** Without that, it is trusted afterwards exactly when a record spells it some
      other way, provided no other fingerprint shares its identity. */
  lemma RemovedIsStillTrustedIff(peers: seq<PeerRecord>, fp: Fingerprint)
    requires forall r | r in peers && HasId(r, PeerIdOf(fp)) :: ParseFingerprint(r.fingerprint) == Some(fp)
    ensures DecideInbound(Removing(peers, HexOf(fp)), fp) == Trusted <==>
            exists r :: r in peers && ParseFingerprint(r.fingerprint) == Some(fp)
                        && r.fingerprint != HexOf(fp) && r.host != Some(HexOf(fp))
  {
    var n := Removing(peers, HexOf(fp));
    var _ := RemovesExactly(peers, HexOf(fp));
    HexRoundTrip(fp);
    InboundExactly(n, fp);
    var i := First(n, (r: PeerRecord) => HasId(r, PeerIdOf(fp)));
    if i < |n| {
      assert n[i] in n && n[i] in peers;
    }
    forall r | r in peers && ParseFingerprint(r.fingerprint) == Some(fp) && r.fingerprint != HexOf(fp)
                 && r.host != Some(HexOf(fp))
      ensures i < |n|
    {
      assert !(HexOf(fp) <= r.fingerprint);
      var k :| 0 <= k < |n| && n[k] == r;
      assert HasId(n[k], PeerIdOf(fp));
    }
  }

  function Uppered(s: string): string {
    seq(|s|, i requires 0 <= i < |s| => if 'a' <= s[i] <= 'z' then s[i] - 'a' + 'A' else s[i])
  }

  /** Reading does not mind the letter case. */
  lemma {:induction false} UpperCaseReadsBack(bytes: seq<byte>)
    ensures |HexOf(bytes)| == 2 * |bytes| && ParseBytes(Uppered(HexOf(bytes))) == Some(bytes)
  {
    hide ParseByte;
    if bytes == [] {
    } else {
      var text := Uppered(HexOf(bytes));
      UpperCaseReadsBack(bytes[1..]);
      UpperByteReadsBack(bytes[0]);
      assert text[2..] == Uppered(HexOf(bytes[1..]));
      assert [text[0], text[1]] == Uppered([HEX_DIGITS[bytes[0] / 16], HEX_DIGITS[bytes[0] % 16]]);
      assert [bytes[0]] + bytes[1..] == bytes;
    }
  }

  lemma UpperByteReadsBack(b: byte)
    ensures var text := Uppered([HEX_DIGITS[b / 16], HEX_DIGITS[b % 16]]); ParseByte(text[0], text[1]) == Some(b)
  {
    hide DigitValue;
    UpperDigitReadsBack(b / 16);
    UpperDigitReadsBack(b % 16);
    var text := Uppered([HEX_DIGITS[b / 16], HEX_DIGITS[b % 16]]);
    assert text[0] == Uppered([HEX_DIGITS[b / 16]])[0] && text[1] == Uppered([HEX_DIGITS[b % 16]])[0];
  }

  lemma UpperDigitReadsBack(d: nat)
    requires d < 16
    ensures DigitValue(Uppered([HEX_DIGITS[d]])[0]) == Some(d)
  {
  }

  /** Such a record: the same digits in upper case, which removing does not see. */
  lemma UpperCaseOutlivesRemoval(fp: Fingerprint)
    requires Uppered(HexOf(fp)) != HexOf(fp)
    ensures var peers := [PeerRecord(None, Uppered(HexOf(fp)))];
            DecideInbound(Removing(peers, HexOf(fp)), fp) == Trusted
  {
    var peers := [PeerRecord(None, Uppered(HexOf(fp)))];
    UpperCaseReadsBack(fp);
    assert peers[0] in peers && ParseFingerprint(peers[0].fingerprint) == Some(fp);
    RemovedIsStillTrustedIff(peers, fp);
  }

  // ---- When saving fails ----

  /** A save that fails never stops an operation from taking effect until the daemon
      ends; only what a restart will find is then as it was. */
  lemma FailedSavesOnlyLag(s: Store, o: SavedOp)
    requires !o.op.Load?
    ensures var n := Persist(s, o);
            && n.peers == Apply(s.peers, o.op)
            && n.stored == if o.writable && (o.op.Accepts? || |n.peers| != |s.peers|) then n.peers else s.stored
  {
  }

  // ---- The store as an object ----

  /** What reading the file comes to. */
  datatype TrustFile = Missing | Unreadable | Malformed | Holds(peers: seq<PeerRecord>)

  datatype TrustError = IoFailed | NotParsed

  class TrustState {
    var peers: seq<PeerRecord>
    var stored: seq<PeerRecord>

    function View(): Store
      reads this
    {
      Store(peers, stored)
    }

    constructor (peers: seq<PeerRecord>)
      ensures View() == Store(peers, peers)
    {
      this.peers, stored := peers, peers;
    }

    /** Loading collapses duplicate pins an earlier version may have left, and is
        refused when the file cannot be read, or be rewritten if it has to be. */
    static method Load(file: TrustFile, writable: bool) returns (r: Result<TrustState, TrustError>)
      ensures match file
              case Missing => r.Ok? && r.value.View() == Store([], [])
              case Unreadable => r == Err(IoFailed)
              case Malformed => r == Err(NotParsed)
              case Holds(held) =>
                if !writable && |KeepNewest(held)| != |held| then r == Err(IoFailed)
                else r.Ok? && r.value.View() == Store(held, held).Restart(writable)
      ensures r.Ok? ==> fresh(r.value)
    {
      if file == Unreadable {
        return Err(IoFailed);
      }
      if file == Malformed {
        return Err(NotParsed);
      }
      var state := new TrustState(if file.Holds? then file.peers else []);
      var dropped := state.DedupHostPins();
      if dropped {
        if !writable {
          return Err(IoFailed);
        }
        state.stored := state.peers;
      }
      return Ok(state);
    }

    method DedupHostPins() returns (dropped: bool)
      modifies this`peers
      ensures peers == KeepNewest(old(peers))
      ensures dropped <==> |peers| != |old(peers)|
    {
      var before := peers;
      var seen: set<string> := {};
      var kept: seq<PeerRecord> := [];
      for i := |before| downto 0
        invariant peers == before == old(peers)
        invariant forall h :: h in seen <==> NamesHost(before[i..], Some(h))
        invariant Reversed(kept) == KeepNewest(before[i..])
      {
        var r := before[i];
        assert before[i..] == [r] + before[i + 1..];
        ReversedOneMore(kept, r);
        if r.host.None? || r.host.value !in seen {
          kept := kept + [r];
        }
        if r.host.Some? {
          seen := seen + {r.host.value};
        }
      }
      assert before[0..] == before;
      peers := Reversed(kept);
      dropped := |peers| != |before|;
    }

    /** A failed save is reported, and the acceptance holds until the daemon ends. */
    method Accept(fp: Fingerprint, host: Option<string>, writable: bool) returns (r: Result<(), TrustError>)
      modifies this
      ensures View() == old(View()).Accept(fp, host, writable)
      ensures r == if writable then Ok(()) else Err(IoFailed)
    {
      var hex := HexOf(fp);
      if host.Some? {
        var kept: seq<PeerRecord> := [];
        for i := 0 to |peers|
          invariant peers == old(peers)
          invariant kept == WithoutRivals(peers[..i], hex, host)
        {
          assert peers[..i + 1][..i] == peers[..i];
          if peers[i].fingerprint == hex || peers[i].host != host {
            kept := kept + [peers[i]];
          }
        }
        assert peers[..|peers|] == peers;
        peers := kept;
      }
      var i := 0;
      while i < |peers| && peers[i].fingerprint != hex
        invariant i <= |peers| && peers == WithoutRivals(old(peers), hex, host)
        invariant forall j | 0 <= j < i :: peers[j].fingerprint != hex
      {
        i := i + 1;
      }
      if i < |peers| {
        if host.Some? {
          peers := peers[i := peers[i].(host := host)];
        }
      } else {
        peers := peers + [PeerRecord(host, hex)];
      }
      if !writable {
        return Err(IoFailed);
      }
      stored := peers;
      return Ok(());
    }

    method Remove(selector: string, writable: bool) returns (r: Result<bool, TrustError>)
      modifies this
      ensures View() == old(View()).Remove(selector, writable)
      ensures r == if |peers| != |old(peers)| && !writable then Err(IoFailed) else Ok(|peers| != |old(peers)|)
    {
      var kept: seq<PeerRecord> := [];
      for i := 0 to |peers|
        invariant peers == old(peers)
        invariant kept == Removing(peers[..i], selector)
      {
        assert peers[..i + 1][..i] == peers[..i];
        if peers[i].host != Some(selector) && !(selector <= peers[i].fingerprint) {
          kept := kept + [peers[i]];
        }
      }
      assert peers[..|peers|] == peers;
      var removed := |kept| != |peers|;
      peers := kept;
      if removed {
        if !writable {
          return Err(IoFailed);
        }
        stored := peers;
      }
      return Ok(removed);
    }

    method AuthorizeServer(host: string, fp: Fingerprint) returns (ok: bool)
      ensures ok <==> AuthorizesServer(peers, host, fp)
    {
      var i := 0;
      while i < |peers| && peers[i].host != Some(host)
        invariant i <= |peers|
        invariant forall j | 0 <= j < i :: peers[j].host != Some(host)
      {
        i := i + 1;
      }
      if i == |peers| {
        return true;
      }
      var pinned := ParseFingerprint(peers[i].fingerprint);
      ok := pinned.None? || pinned == Some(fp);
    }
  }

  function Reversed(s: seq<PeerRecord>): seq<PeerRecord> {
    if s == [] then [] else Reversed(s[1..]) + [s[0]]
  }

  lemma {:induction false} ReversedOneMore(s: seq<PeerRecord>, r: PeerRecord)
    ensures Reversed(s + [r]) == [r] + Reversed(s)
  {
    if s == [] {
    } else {
      assert (s + [r])[1..] == s[1..] + [r];
      ReversedOneMore(s[1..], r);
    }
  }
}
