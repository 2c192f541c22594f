/** Byte strings as newline-terminated lines: the telemetry spool's records and the lines of an SSE body. */
module Lines {
  import opened Common
  import Utf8

  type Bytes = Utf8.Bytes

  const Newline: Utf8.Byte := 10

  /** The offset just after the line that starts at `start`. */
  function LineEnd(raw: Bytes, start: nat): (end: nat)
    requires start <= |raw|
    ensures start <= end <= |raw| && (start < |raw| ==> start < end)
    ensures IsLineEnd(raw, start, end)
    decreases |raw| - start
  {
    if start == |raw| then start
    else if raw[start] == Newline then start + 1
    else LineEnd(raw, start + 1)
  }

  predicate IsLineEnd(raw: Bytes, start: nat, end: nat) {
    && start <= end <= |raw|
    && (end < |raw| ==> start < end && raw[end - 1] == Newline)
    && (start < |raw| ==> start < end)
    && forall i | start <= i < end - 1 :: raw[i] != Newline
  }

  lemma {:induction false} OneLineEnd(raw: Bytes, start: nat, end: nat)
    requires start <= |raw| && IsLineEnd(raw, start, end)
    ensures LineEnd(raw, start) == end
  {}

  /** The records of a file, newline included; only the last may lack one. */
  function Records(raw: Bytes): seq<Bytes>
    decreases |raw|
  {
    if raw == [] then []
    else var end := LineEnd(raw, 0); [raw[..end]] + Records(raw[end..])
  }

  predicate IsRecord(r: Bytes) {
    r != [] && forall i | 0 <= i < |r| - 1 :: r[i] != Newline
  }

  predicate Ended(r: Bytes) { r != [] && r[|r| - 1] == Newline }

  predicate AreRecordsOf(rs: seq<Bytes>, raw: Bytes) {
    && Concat(rs) == raw
    && (forall i | 0 <= i < |rs| :: IsRecord(rs[i]))
    && forall i | 0 <= i < |rs| - 1 :: Ended(rs[i])
  }

  /** `Records` is the only way to cut a file after its newlines. */
  lemma {:induction false} RecordsAreTheCut(raw: Bytes, rs: seq<Bytes>)
    ensures AreRecordsOf(rs, raw) <==> Records(raw) == rs
  {
    RecordsCut(raw);
    if AreRecordsOf(rs, raw) { CutIsUnique(raw, rs); }
  }

  lemma {:induction false} RecordsCut(raw: Bytes)
    ensures AreRecordsOf(Records(raw), raw)
    decreases |raw|
  {
    if raw != [] {
      var end := LineEnd(raw, 0);
      RecordsCut(raw[end..]);
      var rs, later := Records(raw), Records(raw[end..]);
      assert rs == [raw[..end]] + later && rs[1..] == later;
      assert raw == raw[..end] + raw[end..];
      assert forall i | 1 <= i < |rs| :: rs[i] == later[i - 1];
      if |rs| > 1 { assert raw[end..] != []; assert Ended(rs[0]); }
    }
  }

  lemma {:induction false} CutIsUnique(raw: Bytes, rs: seq<Bytes>)
    requires AreRecordsOf(rs, raw)
    ensures Records(raw) == rs
    decreases |rs|
  {
    if rs != [] {
      var r, later := rs[0], Concat(rs[1..]);
      assert raw == r + later;
      assert forall i | 0 <= i < |r| :: raw[i] == r[i];
      if |rs| == 1 { assert rs[1..] == []; assert later == []; }
      OneLineEnd(raw, 0, |r|);
      assert raw[..|r|] == r && raw[|r|..] == later;
      assert forall i | 0 <= i < |rs[1..]| :: rs[1..][i] == rs[i + 1];
      CutIsUnique(later, rs[1..]);
      assert rs == [r] + rs[1..];
    }
  }

  /** A record starts here. */
  predicate Aligned(raw: Bytes, at: nat) {
    at <= |raw| && (at == 0 || raw[at - 1] == Newline)
  }

  lemma {:induction false} LineEndShift(raw: Bytes, start: nat)
    requires start <= |raw|
    ensures LineEnd(raw, start) == start + LineEnd(raw[start..], 0)
  {
    var tail := raw[start..];
    var end := LineEnd(tail, 0);
    assert forall i | 0 <= i < |tail| :: tail[i] == raw[start + i];
    assert forall i | start <= i < start + end - 1 :: raw[i] == tail[i - start];
    OneLineEnd(raw, start, start + end);
  }

  /** The records from here on, one line further. */
  lemma {:induction false} RecordsFrom(raw: Bytes, pos: nat)
    requires pos < |raw|
    ensures var end := LineEnd(raw, pos);
            Records(raw[pos..]) == [raw[pos..end]] + Records(raw[end..])
  {
    hide Records, IsLineEnd;
    var end := LineEnd(raw, pos);
    LineEndShift(raw, pos);
    DropThenSlice(raw, pos, 0, end - pos);
    DropThenDrop(raw, pos, end - pos);
    FirstRecord(raw[pos..], end - pos);
  }

  lemma {:induction false} FirstRecord(raw: Bytes, end: nat)
    requires raw != [] && end == LineEnd(raw, 0)
    ensures Records(raw) == [raw[0..end]] + Records(raw[end..])
  {
    assert raw[0..end] == raw[..end];
  }

  lemma {:induction false} RecordsAppend(a: Bytes, b: Bytes)
    requires a == [] || Ended(a)
    ensures Records(a + b) == Records(a) + Records(b)
    decreases |a|
  {
    if a == [] {
      assert a + b == b;
    } else {
      FirstLineOfBoth(a, b);
      var end := LineEnd(a, 0);
      RecordsAppend(a[end..], b);
      Assoc3([a[..end]], Records(a[end..]), Records(b));
    }
  }

  lemma {:induction false} FirstLineOfBoth(a: Bytes, b: Bytes)
    requires Ended(a)
    ensures var end := LineEnd(a, 0);
            && (a[end..] == [] || Ended(a[end..]))
            && Records(a + b) == [a[..end]] + Records(a[end..] + b)
  {
    var end := LineEnd(a, 0);
    assert forall i | 0 <= i < end :: (a + b)[i] == a[i];
    OneLineEnd(a + b, 0, end);
    AppendSlices(a, b, end);
  }

  /** Without a newline between them, two records become one. */
  lemma {:induction false} RecordsMerge(a: Bytes, b: Bytes)
    requires a != [] && !Ended(a) && b != []
    ensures |Records(a + b)| == |Records(a)| + |Records(b)| - 1
    decreases |a|
  {
    var end := LineEnd(a, 0);
    if end < |a| {
      assert forall i | 0 <= i < end :: (a + b)[i] == a[i];
      OneLineEnd(a + b, 0, end);
      AppendSlices(a, b, end);
      RecordsMerge(a[end..], b);
    } else {
      MergedLine(a, b);
      assert a[|a|..] == [];
    }
  }

  lemma {:induction false} MergedLine(a: Bytes, b: Bytes)
    requires a != [] && !Ended(a) && b != [] && LineEnd(a, 0) == |a|
    ensures |Records(a + b)| == |Records(b)|
  {
    var e := LineEnd(b, 0);
    var both := a + b;
    assert forall i | 0 <= i < |a| :: both[i] == a[i];
    assert forall i | 0 <= i < |b| :: both[|a| + i] == b[i];
    forall i | 0 <= i < |a| + e - 1 ensures both[i] != Newline {
      if i >= |a| { assert both[i] == b[i - |a|]; }
    }
    OneLineEnd(both, 0, |a| + e);
    assert both[|a| + e..] == b[e..];
  }

  // ---------- Lines that arrive in pieces ----------

  /** The lines that are complete, and the beginning of the next. */
  function Complete(raw: Bytes): seq<Bytes>
    decreases |raw|
  {
    if raw == [] then []
    else
      var end := LineEnd(raw, 0);
      if raw[end - 1] == Newline then [raw[..end]] + Complete(raw[end..]) else []
  }

  function Rest(raw: Bytes): Bytes
    decreases |raw|
  {
    if raw == [] then []
    else
      var end := LineEnd(raw, 0);
      if raw[end - 1] == Newline then Rest(raw[end..]) else raw
  }

  /** Cutting a buffer and then what follows it is cutting the whole. */
  lemma {:induction false} CompleteAppend(a: Bytes, b: Bytes)
    ensures Complete(a + b) == Complete(a) + Complete(Rest(a) + b)
    ensures Rest(a + b) == Rest(Rest(a) + b)
    decreases |a|
  {
    if a == [] {
      assert a + b == b;
    } else {
      var end := LineEnd(a, 0);
      if a[end - 1] == Newline {
        assert forall i | 0 <= i < end :: (a + b)[i] == a[i];
        OneLineEnd(a + b, 0, end);
        AppendSlices(a, b, end);
        CompleteAppend(a[end..], b);
        Assoc3([a[..end]], Complete(a[end..]), Complete(Rest(a[end..]) + b));
      }
    }
  }

  lemma {:induction false} RestHasNoLine(raw: Bytes)
    ensures Complete(Rest(raw)) == [] && Rest(Rest(raw)) == Rest(raw)
    decreases |raw|
  {
    if raw != [] && raw[LineEnd(raw, 0) - 1] == Newline { RestHasNoLine(raw[LineEnd(raw, 0)..]); }
  }

  /** With the remainder as a last line, these are the records. */
  lemma {:induction false} CompleteThenRest(raw: Bytes)
    ensures Records(raw) == Complete(raw) + (if Rest(raw) == [] then [] else [Rest(raw)])
    decreases |raw|
  {
    if raw != [] {
      var end := LineEnd(raw, 0);
      if raw[end - 1] == Newline {
        CompleteThenRest(raw[end..]);
      } else {
        assert raw[..end] == raw && raw[end..] == [];
      }
    }
  }
}
