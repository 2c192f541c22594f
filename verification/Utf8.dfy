/** UTF-8 as section 4 of RFC 3629 defines it, the validator the gateway runs on each chunk, and the
  * decoder that carries a split codepoint over to the next chunk. */
module Utf8 {
  import opened Common

  type Byte = b: int | 0 <= b < 256
  type Bytes = seq<Byte>

  // ---------- The grammar: UTF8-octets = *( UTF8-char ) ----------

  predicate Tail(b: Byte) { 0x80 <= b <= 0xBF }

  /** The octets allowed right after the first octet of a multi-octet character. */
  predicate SecondOk(lead: Byte, second: Byte) {
    if lead == 0xE0 then 0xA0 <= second <= 0xBF
    else if lead == 0xED then 0x80 <= second <= 0x9F
    else if lead == 0xF0 then 0x90 <= second <= 0xBF
    else if lead == 0xF4 then 0x80 <= second <= 0x8F
    else Tail(second)
  }

  /** How many octets a character starting with `lead` has; 0 when no character starts with it. */
  function Width(lead: Byte): (n: nat)
    ensures n <= 4
  {
    if lead <= 0x7F then 1
    else if 0xC2 <= lead <= 0xDF then 2
    else if 0xE0 <= lead <= 0xEF then 3
    else if 0xF0 <= lead <= 0xF4 then 4
    else 0
  }

  predicate IsChar(c: Bytes) {
    && |c| > 0
    && |c| == Width(c[0])
    && (|c| >= 2 ==> SecondOk(c[0], c[1]))
    && (|c| >= 3 ==> Tail(c[2]))
    && (|c| >= 4 ==> Tail(c[3]))
  }

  ghost predicate WellFormed(s: Bytes) {
    exists chars: seq<Bytes> :: (forall c :: c in chars ==> IsChar(c)) && Concat(chars) == s
  }

  /** A proper, non-empty beginning of some character. */
  ghost predicate IsPartialChar(s: Bytes) {
    exists c: Bytes :: IsChar(c) && 0 < |s| < |c| && s == c[..|s|]
  }

  /** Well-formed text followed by at most one character that has not fully arrived. */
  ghost predicate Acceptable(s: Bytes) {
    exists k: nat :: AcceptableAt(s, k)
  }

  ghost predicate AcceptableAt(s: Bytes, k: nat) {
    k <= |s| && WellFormed(s[..k]) && (k == |s| || IsPartialChar(s[k..]))
  }

  // ---------- The validator ----------

  datatype Lead = Complete(n: nat) | Incomplete | Bad

  /** What the validator decides about the character at the front of `s`: it reads one octet at a time
    * and reports the end of input before it looks at an octet that is not there. */
  function First(s: Bytes): Lead
    requires s != []
  {
    var w := Width(s[0]);
    if w == 0 then Bad
    else if w == 1 then Complete(1)
    else if |s| == 1 then Incomplete
    else if !SecondOk(s[0], s[1]) then Bad
    else if w == 2 then Complete(2)
    else if |s| == 2 then Incomplete
    else if !Tail(s[2]) then Bad
    else if w == 3 then Complete(3)
    else if |s| == 3 then Incomplete
    else if !Tail(s[3]) then Bad
    else Complete(4)
  }

  datatype Status = Clean | Truncated | Malformed
  datatype Scanned = Scanned(validUpTo: nat, status: Status)

  /** `std::str::from_utf8`: `Truncated` is the error without a length, `Malformed` the one with. */
  function Scan(s: Bytes): (r: Scanned)
    ensures r.validUpTo <= |s|
  {
    if s == [] then Scanned(0, Clean)
    else match First(s)
      case Complete(n) => var r := Scan(s[n..]); Scanned(n + r.validUpTo, r.status)
      case Incomplete => Scanned(0, Truncated)
      case Bad => Scanned(0, Malformed)
  }

  lemma {:induction false} FirstComplete(s: Bytes, n: nat)
    requires s != []
    ensures First(s) == Complete(n) <==> 0 < n <= |s| && IsChar(s[..n])
  {}

  /** `Incomplete` means exactly that some continuation would complete the character. */
  lemma {:induction false} FirstIncomplete(s: Bytes)
    requires s != []
    ensures First(s).Incomplete? <==> IsPartialChar(s)
    ensures First(s).Incomplete? ==> |s| <= 3
  {
    if First(s).Incomplete? {
      var second: Byte := if s[0] == 0xE0 then 0xA0 else if s[0] == 0xF0 then 0x90 else 0x80;
      var full: Bytes := [s[0], if |s| >= 2 then s[1] else second, if |s| >= 3 then s[2] else 0x80, 0x80];
      var c := full[..Width(s[0])];
      assert IsChar(c) && s == c[..|s|];
    }
  }

  lemma {:induction false} FirstStable(s: Bytes, t: Bytes)
    requires s != []
    ensures !First(s).Incomplete? ==> First(s + t) == First(s)
  {}

  lemma {:induction false} EmptyIsWellFormed()
    ensures WellFormed([])
  {
    assert Concat<Byte>([]) == [];
  }

  lemma {:induction false} WellFormedCons(c: Bytes, rest: Bytes)
    requires IsChar(c) && WellFormed(rest)
    ensures WellFormed(c + rest)
  {
    var chars: seq<Bytes> :| (forall x :: x in chars ==> IsChar(x)) && Concat(chars) == rest;
    assert ([c] + chars)[1..] == chars;
    assert Concat([c] + chars) == c + rest;
  }

  ghost predicate Pieces(s: Bytes, r: Scanned) {
    && r.validUpTo <= |s|
    && WellFormed(s[..r.validUpTo])
    && (r.status.Clean? <==> r.validUpTo == |s|)
    && (r.status.Truncated? ==> IsPartialChar(s[r.validUpTo..]) && |s| - r.validUpTo <= 3)
  }

  lemma {:induction false} PiecesCons(s: Bytes, n: nat, r: Scanned)
    requires 0 < n <= |s| && IsChar(s[..n]) && Pieces(s[n..], r)
    ensures Pieces(s, Scanned(n + r.validUpTo, r.status))
  {
    WellFormedCons(s[..n], s[n..][..r.validUpTo]);
    TakeExtends(s, n, r.validUpTo);
    DropThenDrop(s, n, r.validUpTo);
  }

  lemma {:induction false} ScanPieces(s: Bytes)
    ensures Pieces(s, Scan(s))
  {
    EmptyIsWellFormed();
    if s != [] {
      match First(s)
      case Complete(n) =>
        FirstComplete(s, n);
        ScanPieces(s[n..]);
        PiecesCons(s, n, Scan(s[n..]));
      case Incomplete =>
        FirstIncomplete(s);
        assert s[0..] == s;
      case Bad =>
    }
  }

  /** Scanning what follows: everything already decided stays decided. */
  lemma {:induction false} ScanAppend(s: Bytes, t: Bytes)
    ensures var r := Scan(s);
            if r.status.Malformed? then Scan(s + t) == r
            else var q := Scan(s[r.validUpTo..] + t);
                 Scan(s + t) == Scanned(r.validUpTo + q.validUpTo, q.status)
  {
    hide First;
    if s == [] {
      assert s[0..] + t == s + t;
    } else {
      FirstStable(s, t);
      match First(s)
      case Complete(n) =>
        FirstComplete(s, n);
        assert (s + t)[n..] == s[n..] + t;
        ScanAppend(s[n..], t);
        DropThenDrop(s, n, Scan(s[n..]).validUpTo);
      case Incomplete =>
        assert s[0..] + t == s + t;
      case Bad =>
    }
  }

  lemma {:induction false} CharsScanClean(chars: seq<Bytes>, rest: Bytes)
    requires forall c :: c in chars ==> IsChar(c)
    ensures Scan(Concat(chars) + rest) == Scanned(|Concat(chars)| + Scan(rest).validUpTo, Scan(rest).status)
    decreases |chars|
  {
    if chars == [] {
      assert Concat(chars) + rest == rest;
    } else {
      var c := chars[0];
      var s := Concat(chars) + rest;
      assert c in chars;
      assert s == c + (Concat(chars[1..]) + rest);
      assert s[..|c|] == c && s[|c|..] == Concat(chars[1..]) + rest;
      FirstComplete(s, |c|);
      CharsScanClean(chars[1..], rest);
    }
  }

  lemma {:induction false} WellFormedScan(s: Bytes)
    ensures WellFormed(s) <==> Scan(s).status.Clean?
  {
    ScanPieces(s);
    assert s[..|s|] == s;
    if WellFormed(s) {
      var chars: seq<Bytes> :| (forall c :: c in chars ==> IsChar(c)) && Concat(chars) == s;
      CharsScanClean(chars, []);
      assert s + [] == s;
    }
  }

  lemma {:induction false} WellFormedPrefixScan(s: Bytes, k: nat)
    requires k <= |s| && WellFormed(s[..k])
    ensures Scan(s) == Scanned(k + Scan(s[k..]).validUpTo, Scan(s[k..]).status)
  {
    var chars: seq<Bytes> :| (forall c :: c in chars ==> IsChar(c)) && Concat(chars) == s[..k];
    CharsScanClean(chars, s[k..]);
    assert s[..k] + s[k..] == s;
  }

  /** The validator against the grammar: it rejects exactly the texts that no continuation can repair,
    * and `validUpTo` is the longest well-formed prefix. */
  lemma {:induction false} ScanIsGrammar(s: Bytes)
    ensures Acceptable(s) <==> !Scan(s).status.Malformed?
    ensures WellFormed(s[..Scan(s).validUpTo])
    ensures forall k: nat :: k <= |s| && WellFormed(s[..k]) ==> k <= Scan(s).validUpTo
  {
    ScanPieces(s);
    var r := Scan(s);
    if !r.status.Malformed? {
      assert AcceptableAt(s, r.validUpTo);
    }
    if k: nat :| AcceptableAt(s, k) {
      WellFormedPrefixScan(s, k);
      if k < |s| { FirstIncomplete(s[k..]); }
    }
    forall k: nat | k <= |s| && WellFormed(s[..k]) ensures k <= r.validUpTo {
      WellFormedPrefixScan(s, k);
    }
  }

  // ---------- The carrying decoder ----------

  /** `Ok((text, incomplete_codepoint))`, or the corrupt-bytes error. */
  type Decoded = Option<(Bytes, bool)>

  function DecodeStep(carry: Bytes, chunk: Bytes): (Decoded, Bytes) {
    var buf := carry + chunk;
    match Scan(buf).status
    case Clean => (Some((buf, false)), [])
    case Malformed => (None, buf)
    case Truncated => (Some((buf[..Scan(buf).validUpTo], true)), buf[Scan(buf).validUpTo..])
  }

  class CarryDecoder {
    var carry: Bytes

    constructor ()
      ensures carry == []
    {
      carry := [];
    }

    method Decode(chunk: Bytes) returns (r: Decoded)
      modifies this
      ensures (r, carry) == DecodeStep(old(carry), chunk)
    {
      carry := carry + chunk;
      var scanned := Scan(carry);
      match scanned.status {
        case Clean =>
          r := Some((carry, false));
          carry := [];
        case Malformed =>
          r := None;
        case Truncated =>
          var text := carry[..scanned.validUpTo];
          carry := carry[scanned.validUpTo..];
          r := Some((text, true));
      }
    }
  }

  datatype DecodeRun = Corrupt(failedAt: nat) | Streamed(pieces: seq<Bytes>, carry: Bytes)

  /** Decoding a whole stream of chunks, stopping at the first corrupt one. */
  function DecodeAll(carry: Bytes, chunks: seq<Bytes>): (run: DecodeRun)
    ensures run.Corrupt? ==> run.failedAt < |chunks|
    decreases |chunks|
  {
    if chunks == [] then Streamed([], carry)
    else
      var (r, carry') := DecodeStep(carry, chunks[0]);
      if r.None? then Corrupt(0)
      else match DecodeAll(carry', chunks[1..])
        case Corrupt(i) => Corrupt(i + 1)
        case Streamed(pieces, last) => Streamed([r.value.0] + pieces, last)
  }

  ghost predicate IsCarry(carry: Bytes) {
    carry == [] || First(carry).Incomplete?
  }

  lemma {:induction false} CarryScan(carry: Bytes)
    requires IsCarry(carry)
    ensures Scan(carry) == Scanned(0, if carry == [] then Clean else Truncated)
    ensures |carry| <= 3
  {
    if carry != [] { FirstIncomplete(carry); }
  }

  /** One call in terms of the bytes it has: nothing is lost, and what stays is a partial character. */
  lemma {:induction false} DecodeStepSplits(carry: Bytes, chunk: Bytes)
    requires IsCarry(carry)
    ensures var (r, carry') := DecodeStep(carry, chunk);
            && (r.None? <==> Scan(carry + chunk).status.Malformed?)
            && (r.Some? ==> IsCarry(carry') && |carry'| <= 3 && r.value.0 + carry' == carry + chunk
                            && (r.value.1 <==> carry' != [])
                            && |r.value.0| == Scan(carry + chunk).validUpTo)
  {
    var buf := carry + chunk;
    ScanPieces(buf);
    var r := Scan(buf);
    assert buf[..r.validUpTo] + buf[r.validUpTo..] == buf;
    if r.status.Truncated? { FirstIncomplete(buf[r.validUpTo..]); }
  }

  /** One call and then the rest of the stream, against scanning everything at once. */
  lemma {:induction false} DecodeStepThenRest(carry: Bytes, chunk: Bytes, rest: Bytes)
    requires IsCarry(carry)
    ensures var (r, carry') := DecodeStep(carry, chunk);
            if r.None? then Scan(carry + (chunk + rest)).status.Malformed?
            else var q := Scan(carry' + rest);
                 Scan(carry + (chunk + rest)) == Scanned(|r.value.0| + q.validUpTo, q.status)
  {
    var buf := carry + chunk;
    ScanPieces(buf);
    ScanAppend(buf, rest);
    Assoc3(carry, chunk, rest);
    assert Scan(buf).status.Clean? ==> buf[|buf|..] + rest == [] + rest;
  }

  ghost predicate RunMatchesScan(run: DecodeRun, all: Bytes) {
    match run
    case Corrupt(i) => Scan(all).status.Malformed?
    case Streamed(pieces, last) =>
      && !Scan(all).status.Malformed?
      && Concat(pieces) + last == all
      && |Concat(pieces)| == Scan(all).validUpTo
      && IsCarry(last)
  }

  lemma {:induction false} DecodeAllScan(carry: Bytes, chunks: seq<Bytes>)
    requires IsCarry(carry)
    ensures RunMatchesScan(DecodeAll(carry, chunks), carry + Concat(chunks))
    decreases |chunks|
  {
    if chunks == [] {
      assert carry + Concat<Byte>([]) == carry;
      CarryScan(carry);
    } else {
      var (r, carry') := DecodeStep(carry, chunks[0]);
      DecodeStepSplits(carry, chunks[0]);
      if r.Some? {
        DecodeAllScan(carry', chunks[1..]);
      }
      RunExtends(carry, chunks[0], DecodeAll(carry', chunks[1..]), Concat(chunks[1..]));
    }
  }

  lemma {:induction false} RunExtends(carry: Bytes, chunk: Bytes, run: DecodeRun, rest: Bytes)
    requires IsCarry(carry)
    requires var (r, carry') := DecodeStep(carry, chunk); r.Some? ==> RunMatchesScan(run, carry' + rest)
    ensures var (r, carry') := DecodeStep(carry, chunk);
            RunMatchesScan(if r.None? then Corrupt(0)
                           else match run case Corrupt(i) => Corrupt(i + 1)
                                          case Streamed(pieces, last) => Streamed([r.value.0] + pieces, last),
                           carry + (chunk + rest))
  {
    var (r, carry') := DecodeStep(carry, chunk);
    DecodeStepThenRest(carry, chunk, rest);
    DecodeStepSplits(carry, chunk);
    if r.Some? && run.Streamed? {
      var text, pieces := r.value.0, run.pieces;
      assert ([text] + pieces)[1..] == pieces;
      assert Concat([text] + pieces) == text + Concat(pieces);
      Regroup(text, Concat(pieces), run.carry, carry', rest, carry, chunk);
    }
  }

  lemma {:induction false} Regroup(text: Bytes, pieces: Bytes, last: Bytes, carry': Bytes, rest: Bytes, carry: Bytes, chunk: Bytes)
    requires pieces + last == carry' + rest && text + carry' == carry + chunk
    ensures (text + pieces) + last == carry + (chunk + rest)
  {
    assert (text + pieces) + last == text + (pieces + last);
    assert text + (carry' + rest) == (text + carry') + rest;
    assert (carry + chunk) + rest == carry + (chunk + rest);
  }

  /** Chunking independence: for every byte string and every split, decoding succeeds exactly when the
    * bytes are well-formed text followed by at most one unfinished character; the pieces then join to
    * the longest well-formed prefix and the carry is exactly the rest, three bytes at most. */
  lemma {:induction false} DecodingIgnoresChunking(chunks: seq<Bytes>)
    ensures DecodeAll([], chunks).Streamed? <==> Acceptable(Concat(chunks))
    ensures DecodeAll([], chunks).Streamed? ==>
              var Streamed(pieces, carry) := DecodeAll([], chunks);
              && Concat(pieces) + carry == Concat(chunks)
              && WellFormed(Concat(pieces))
              && |carry| <= 3
              && (forall k: nat :: k <= |Concat(chunks)| && WellFormed(Concat(chunks)[..k]) ==> k <= |Concat(pieces)|)
  {
    var s := Concat(chunks);
    assert [] + s == s;
    DecodeAllScan([], chunks);
    ScanIsGrammar(s);
    if DecodeAll([], chunks).Streamed? {
      var Streamed(pieces, carry) := DecodeAll([], chunks);
      CarryScan(carry);
      assert s[..|Concat(pieces)|] == Concat(pieces);
    }
  }

  /** The failing call is the first one whose bytes so far no longer can be repaired. */
  lemma {:induction false} CorruptionIsReportedAtOnce(chunks: seq<Bytes>, i: nat)
    requires i < |chunks|
    ensures DecodeAll([], chunks) == Corrupt(i) <==>
            Acceptable(Concat(chunks[..i])) && !Acceptable(Concat(chunks[..i + 1]))
  {
    PrefixRun([], chunks, i);
    PrefixRun([], chunks, i + 1);
    DecodingIgnoresChunking(chunks[..i]);
    DecodingIgnoresChunking(chunks[..i + 1]);
  }

  lemma {:induction false} PrefixRun(carry: Bytes, chunks: seq<Bytes>, i: nat)
    requires i <= |chunks|
    ensures DecodeAll(carry, chunks[..i]).Streamed? <==>
            DecodeAll(carry, chunks).Corrupt? ==> DecodeAll(carry, chunks).failedAt >= i
    decreases |chunks|
  {
    if i > 0 {
      assert chunks[..i][1..] == chunks[1..][..i - 1];
      PrefixRun(DecodeStep(carry, chunks[0]).1, chunks[1..], i - 1);
    }
  }

  // ---------- Character boundaries of a Rust string ----------

  /** `str::is_char_boundary`. */
  predicate IsCharBoundary(s: Bytes, i: nat) {
    i == 0 || i == |s| || (i < |s| && !Tail(s[i]))
  }

  /** No boundary falls inside the first character, so a prefix up to one starts with it as well. */
  lemma {:induction false} FirstOfPrefix(s: Bytes, i: nat)
    requires s != [] && First(s).Complete? && 0 < i <= |s| && IsCharBoundary(s, i)
    ensures var n := First(s).n; 0 < n <= i && First(s[..i]) == First(s) && IsCharBoundary(s[n..], i - n)
  {
    var n := First(s).n;
    FirstComplete(s, n);
    assert forall j :: 0 < j < n ==> Tail(s[j]);
    assert s[..i][..n] == s[..n];
    FirstComplete(s[..i], n);
  }

  lemma {:induction false} BoundaryScan(s: Bytes, i: nat)
    requires Scan(s).status.Clean? && i <= |s| && IsCharBoundary(s, i)
    ensures Scan(s[..i]).status.Clean? && Scan(s[i..]).status.Clean?
    decreases |s|
  {
    hide First;
    if i == 0 {
      assert s[0..] == s;
    } else {
      var n := First(s).n;
      FirstOfPrefix(s, i);
      BoundaryScan(s[n..], i - n);
      TakeThenDrop(s, n, i);
      DropThenDrop(s, n, i - n);
    }
  }

  lemma {:induction false} BoundarySplits(s: Bytes, i: nat)
    requires WellFormed(s) && i <= |s| && IsCharBoundary(s, i)
    ensures WellFormed(s[..i]) && WellFormed(s[i..])
  {
    hide *;
    WellFormedScan(s);
    BoundaryScan(s, i);
    WellFormedScan(s[..i]);
    WellFormedScan(s[i..]);
  }

  lemma {:induction false} WellFormedAppend(a: Bytes, b: Bytes)
    requires WellFormed(a) && WellFormed(b)
    ensures WellFormed(a + b)
  {
    hide Scan, WellFormed;
    WellFormedScan(a);
    WellFormedScan(b);
    ScanAppend(a, b);
    ScanPieces(a);
    assert a[|a|..] + b == b;
    WellFormedScan(a + b);
  }

  /** A character has at most four bytes, so a boundary is never more than three bytes back. */
  lemma {:induction false} BoundaryNear(s: Bytes, i: nat) returns (b: nat)
    requires WellFormed(s) && i <= |s|
    ensures b <= i <= b + 3 && IsCharBoundary(s, b)
    decreases |s|
  {
    if i == |s| { return i; }
    WellFormedScan(s);
    var n := First(s).n;
    FirstComplete(s, n);
    if i < n { return 0; }
    WellFormedScan(s[n..]);
    b := BoundaryNear(s[n..], i - n);
    b := b + n;
    if b != n { assert s[n..][b - n..] == s[b..]; }
    if b == n && n < |s| {
      assert First(s[n..]).Complete?;
      assert s[n..][0] == s[n];
    }
  }
}
