/** The framer of ide/vscode/src/sse.ts against the line endings of the server-sent-events standard
  * (WHATWG HTML, section 9.2.5: a line ends at a carriage return and line feed, at a line feed, or at a
  * carriage return). What a `data:` line gives is taken as the framer takes it; only the framing differs. */
module SseStandard {
  import opened Common
  import opened SseStream

  // ---------- The standard's lines and events ----------

  predicate EndsLine(c: char) { c == '\r' || c == '\n' }

  /** Where the first line's ending begins. */
  function FirstEnd(s: string): (r: Option<nat>)
    ensures r.Some? ==> r.value < |s| && EndsLine(s[r.value]) && forall i | 0 <= i < r.value :: !EndsLine(s[i])
    ensures r.None? ==> forall i | 0 <= i < |s| :: !EndsLine(s[i])
  {
    if s == "" then None
    else if EndsLine(s[0]) then Some(0)
    else
      match FirstEnd(s[1..])
      case None =>
        assert forall i | 1 <= i < |s| :: s[i] == s[1..][i - 1];
        None
      case Some(k) =>
        assert forall i | 1 <= i < |s| :: s[i] == s[1..][i - 1];
        Some(k + 1)
  }

  /** Past the ending that begins at `k`. */
  function PastEnd(s: string, k: nat): nat
    requires k < |s|
  {
    if s[k] == '\r' && k + 1 < |s| && s[k + 1] == '\n' then k + 2 else k + 1
  }

  /** The complete lines of a text. */
  function StdLines(s: string): seq<string>
    decreases |s|
  {
    match FirstEnd(s)
    case None => []
    case Some(k) => [s[..k]] + StdLines(s[PastEnd(s, k)..])
  }

  /** A blank line dispatches what came before it: the lines up to the last blank one. */
  function Dispatched(lines: seq<string>): seq<string>
    decreases |lines|
  {
    if lines == [] || lines[|lines| - 1] == "" then lines else Dispatched(lines[..|lines| - 1])
  }

  function StdPayloads(text: string): seq<string> { DataLines(Dispatched(StdLines(text))) }

  // ---------- Lines across a line feed ----------

  lemma {:induction false} FirstEndIs(s: string, k: nat)
    requires k < |s| && EndsLine(s[k]) && forall i | 0 <= i < k :: !EndsLine(s[i])
    ensures FirstEnd(s) == Some(k)
  {}

  /** A line feed ends a line, whatever stands before it. */
  lemma {:induction false} StdLinesAcross(a: string, b: string)
    requires a != "" && a[|a| - 1] == '\n'
    ensures StdLines(a + b) == StdLines(a) + StdLines(b)
    decreases |a|
  {
    hide FirstEnd, PastEnd, StdLines;
    var k := FirstLineAcross(a, b);
    var past := PastEnd(a, k);
    if past < |a| {
      assert a[past..][|a[past..]| - 1] == a[|a| - 1];
      StdLinesAcross(a[past..], b);
      Assoc3([a[..k]], StdLines(a[past..]), StdLines(b));
    } else {
      NothingHasNoLines();
      assert a[past..] == "" && a[past..] + b == b;
    }
  }

  lemma {:induction false} NothingHasNoLines()
    ensures StdLines("") == []
  {}

  /** The line feed at the end of `a` keeps the first line of `a` and what follows it apart from `b`. */
  lemma {:induction false} FirstLineAcross(a: string, b: string) returns (k: nat)
    requires a != "" && a[|a| - 1] == '\n'
    ensures k < |a| && PastEnd(a, k) <= |a|
    ensures StdLines(a) == [a[..k]] + StdLines(a[PastEnd(a, k)..])
    ensures StdLines(a + b) == [a[..k]] + StdLines(a[PastEnd(a, k)..] + b)
  {
    k := FirstEnd(a).value;
    var past := PastEnd(a, k);
    assert forall i | 0 <= i < |a| :: (a + b)[i] == a[i];
    FirstEndIs(a + b, k);
    assert PastEnd(a + b, k) == past;
    AppendSlices(a, b, k);
    AppendSlices(a, b, past);
  }

  lemma {:induction false} DispatchedAcross(a: seq<string>, b: seq<string>)
    requires a == [] || a[|a| - 1] == ""
    ensures Dispatched(a + b) == a + Dispatched(b)
    decreases |b|
  {
    if b == [] {
      assert a + b == a;
    } else {
      var last := b[|b| - 1];
      assert (a + b)[|a + b| - 1] == last;
      if last != "" {
        assert (a + b)[..|a + b| - 1] == a + b[..|b| - 1];
        DispatchedAcross(a, b[..|b| - 1]);
      }
    }
  }

  // ---------- One stretch between line feeds ----------

  predicate AllSpace(s: string) { forall i | 0 <= i < |s| :: IsSpace(s[i]) }

  /** No line feed in it. */
  predicate OneStretch(s: string) { '\n' !in s }

  /** A carriage return in it neither cuts a data line short nor begins one. */
  predicate ReturnsHarmless(s: string) {
    forall i | 0 <= i < |s| :: if IsData(s) then CutsNothing(s, i) else BeginsNothing(s, i)
  }

  predicate CutsNothing(s: string, i: nat)
    requires i < |s|
  {
    s[i] == '\r' ==> AllSpace(s[i..])
  }

  predicate BeginsNothing(s: string, i: nat)
    requires i < |s|
  {
    s[i] == '\r' ==> !IsData(s[i + 1..])
  }

  /** No data line, at its start or after a carriage return. */
  predicate NoData(s: string) {
    !IsData(s) && forall i | 0 <= i < |s| :: BeginsNothing(s, i)
  }

  lemma {:induction false} DataIff(line: string)
    ensures LinePayload(line) == [] <==> !IsData(line)
    ensures |LinePayload(line)| <= 1
  {}

  /** The standard's lines of a stretch: what stands before its first return, and those of the rest. */
  lemma {:induction false} StretchLines(s: string)
    requires OneStretch(s)
    ensures match FirstEnd(s)
            case None => StdLines(s + "\n") == [s]
            case Some(k) =>
              s[k] == '\r' && StdLines(s + "\n") ==
              [s[..k]] + (if k + 1 == |s| then [] else StdLines(s[k + 1..] + "\n"))
  {
    var t := s + "\n";
    assert forall i | 0 <= i < |s| :: t[i] == s[i] && t[i] != '\n';
    assert FirstEnd("") == None && StdLines("") == [];
    match FirstEnd(s)
    case None =>
      FirstEndIs(t, |s|);
      assert t[..|s|] == s && t[|s| + 1..] == "";
    case Some(k) =>
      FirstEndIs(t, k);
      assert t[..k] == s[..k];
      if k + 1 == |s| {
        assert t[k + 2..] == "";
      } else {
        assert t[k + 1..] == s[k + 1..] + "\n";
      }
  }

  lemma {:induction false} DropStretch(s: string, k: nat)
    requires OneStretch(s) && k <= |s|
    ensures OneStretch(s[k..])
  {}

  lemma {:induction false} NoDataLines(s: string)
    requires OneStretch(s)
    ensures DataLines(StdLines(s + "\n")) == [] <==> NoData(s)
    decreases |s|
  {
    hide LinePayload, StdLines;
    StretchLines(s);
    match FirstEnd(s)
    case None =>
      DataOne(s);
      assert forall i | 0 <= i < |s| :: s[i] != '\r';
      DataIff(s);
    case Some(k) =>
      var first, rest := s[..k], s[k + 1..];
      FirstPiece(s, k);
      DataIff(first);
      DataLinesAppend([first], if rest == "" then [] else StdLines(rest + "\n"));
      DataOne(first);
      NothingIsNoData();
      if rest != "" {
        DropStretch(s, k + 1);
        NoDataLines(rest);
      }
      NoDataRest(s, k);
  }

  lemma {:induction false} NothingIsNoData()
    ensures DataLines([]) == [] && NoData("")
  {}

  lemma {:induction false} DataOne(line: string)
    ensures DataLines([line]) == LinePayload(line)
  {
    assert [line][1..] == [];
  }

  lemma {:induction false} FirstPiece(s: string, k: nat)
    requires k < |s| && EndsLine(s[k]) && forall i | 0 <= i < k :: !EndsLine(s[i])
    ensures IsData(s[..k]) <==> IsData(s)
  {
    if IsData(s) {
      assert s[..5] == "data:";
      assert forall i | 0 <= i < 5 :: s[i] == "data:"[i];
      assert k >= 5;
    }
  }

  lemma {:induction false} NoDataRest(s: string, k: nat)
    requires k < |s| && s[k] == '\r' && forall i | 0 <= i < k :: !EndsLine(s[i])
    ensures NoData(s) <==> !IsData(s) && NoData(s[k + 1..])
  {
    hide IsData;
    var rest := s[k + 1..];
    forall i | 0 <= i < |rest| ensures rest[i] == s[k + 1 + i] && rest[i + 1..] == s[k + 1 + i + 1..] {}
    if NoData(s) {
      assert BeginsNothing(s, k);
      forall i | 0 <= i < |rest| ensures BeginsNothing(rest, i) {
        assert BeginsNothing(s, k + 1 + i);
      }
    }
    if !IsData(s) && NoData(rest) {
      forall i | 0 <= i < |s| ensures BeginsNothing(s, i) {
        if i > k { assert BeginsNothing(rest, i - k - 1); }
      }
    }
  }

  // ---------- Trimming across a carriage return ----------

  lemma {:induction false} SpaceCons(s: string)
    requires s != ""
    ensures AllSpace(s) <==> IsSpace(s[0]) && AllSpace(s[1..])
  {
    hide IsSpace;
    assert forall i | 1 <= i < |s| :: s[i] == s[1..][i - 1];
  }

  lemma {:induction false} SpaceTail(s: string, k: nat, i: nat)
    requires k <= i <= |s| && AllSpace(s[k..])
    ensures AllSpace(s[i..])
  {
    hide IsSpace;
    forall j | 0 <= j < |s[i..]| ensures IsSpace(s[i..][j]) {
      assert s[i..][j] == s[k..][i - k + j];
    }
  }

  lemma {:induction false} TrimStartOfSpace(s: string)
    requires AllSpace(s)
    ensures TrimStart(s) == ""
  {
    if s != "" {
      assert forall i | 0 <= i < |s[1..]| :: s[1..][i] == s[i + 1];
      TrimStartOfSpace(s[1..]);
    }
  }

  lemma {:induction false} TrimEndDropsSpace(s: string, tail: string)
    requires AllSpace(tail)
    ensures TrimEnd(s + tail) == TrimEnd(s)
    decreases |tail|
  {
    if tail == "" {
      assert s + tail == s;
    } else {
      var last := tail[|tail| - 1];
      assert IsSpace(last) && (s + tail)[|s + tail| - 1] == last;
      assert (s + tail)[..|s + tail| - 1] == s + tail[..|tail| - 1];
      TrimEndDropsSpace(s, tail[..|tail| - 1]);
    }
  }

  lemma {:induction false} TrimStartAppend(s: string, tail: string)
    ensures TrimStart(s + tail) == if AllSpace(s) then TrimStart(tail) else TrimStart(s) + tail
    decreases |s|
  {
    hide IsSpace, AllSpace;
    if s == "" {
      assert s + tail == tail;
      NothingIsSpace();
    } else {
      assert (s + tail)[1..] == s[1..] + tail && (s + tail)[0] == s[0];
      SpaceCons(s);
      if IsSpace(s[0]) { TrimStartAppend(s[1..], tail); }
    }
  }

  lemma {:induction false} NothingIsSpace()
    ensures AllSpace("")
  {}

  lemma {:induction false} TrimEndLong(s: string, i: nat)
    requires i < |s| && !IsSpace(s[i])
    ensures |TrimEnd(s)| > i
  {}

  lemma {:induction false} TrimmedEmpty(s: string)
    ensures TrimStart(s) == "" <==> AllSpace(s)
  {
    if AllSpace(s) { TrimStartOfSpace(s); }
  }

  /** Text after the line changes what the line trims to, unless it is all space. */
  lemma {:induction false} TrimSameIff(s: string, tail: string)
    requires tail != "" && IsSpace(tail[0])
    ensures Trim(s + tail) == Trim(s) <==> AllSpace(tail)
  {
    hide IsSpace, TrimStart, TrimEnd, AllSpace;
    if AllSpace(tail) { TrimSame(s, tail); } else { TrimDiffers(s, tail); }
  }

  lemma {:induction false} TrimSame(s: string, tail: string)
    requires AllSpace(tail)
    ensures Trim(s + tail) == Trim(s)
  {
    hide IsSpace, TrimStart, TrimEnd, AllSpace;
    TrimStartAppend(s, tail);
    if AllSpace(s) {
      TrimStartOfSpace(s);
      TrimStartOfSpace(tail);
    } else {
      TrimEndDropsSpace(TrimStart(s), tail);
    }
  }

  lemma {:induction false} TrimDiffers(s: string, tail: string)
    requires !AllSpace(tail)
    ensures Trim(s + tail) != Trim(s)
  {
    hide IsSpace, TrimStart, TrimEnd;
    TrimStartAppend(s, tail);
    var i :| 0 <= i < |tail| && !IsSpace(tail[i]);
    if AllSpace(s) {
      TrimStartOfSpace(s);
      TrimmedEmpty(tail);
      TrimEndLong(TrimStart(tail), 0);
    } else {
      var t := TrimStart(s);
      assert (t + tail)[|t| + i] == tail[i];
      TrimEndLong(t + tail, |t| + i);
    }
  }

  /** A stretch gives the framer what it gives the standard exactly when its returns are harmless, and it
    * never gives the framer more. */
  lemma {:induction false} StretchAgreesIff(s: string)
    requires OneStretch(s)
    ensures var std := DataLines(StdLines(s + "\n"));
            && |std| >= |LinePayload(s)|
            && (std == LinePayload(s) <==> ReturnsHarmless(s))
  {
    hide StdLines, DataLines, Trim, NoData;
    StretchLines(s);
    DataOne(s);
    match FirstEnd(s)
    case None =>
      assert forall i | 0 <= i < |s| :: s[i] != '\r';
    case Some(k) =>
      var first, rest := s[..k], s[k + 1..];
      FirstPiece(s, k);
      DataOne(first);
      DataLinesAppend([first], if rest == "" then [] else StdLines(rest + "\n"));
      NothingIsNoData();
      DropStretch(s, k + 1);
      NoDataLines(rest);
      if IsData(s) {
        DataStretch(s, k);
      } else {
        NoDataRest(s, k);
        HarmlessOther(s);
      }
  }

  lemma {:induction false} HarmlessOther(s: string)
    requires !IsData(s)
    ensures ReturnsHarmless(s) <==> NoData(s)
  {}

  /** A data line cut at a return: the same payload, and none after it, if only space follows. */
  lemma {:induction false} DataStretch(s: string, k: nat)
    requires k < |s| && OneStretch(s) && IsData(s) && IsData(s[..k])
    requires s[k] == '\r' && forall i | 0 <= i < k :: !EndsLine(s[i])
    ensures ReturnsHarmless(s) ==> NoData(s[k + 1..])
    ensures ReturnsHarmless(s) <==> LinePayload(s[..k]) == LinePayload(s)
  {
    hide Trim, ReturnsHarmless, NoData, AllSpace;
    assert s[5..] == s[..k][5..] + s[k..];
    TrimSameIff(s[..k][5..], s[k..]);
    HarmlessData(s, k);
    if AllSpace(s[k..]) { SpaceHasNoData(s[k + 1..], s, k); }
  }

  lemma {:induction false} HarmlessData(s: string, k: nat)
    requires IsData(s) && k < |s| && s[k] == '\r' && forall i | 0 <= i < k :: !EndsLine(s[i])
    ensures ReturnsHarmless(s) <==> AllSpace(s[k..])
  {
    hide AllSpace;
    if AllSpace(s[k..]) {
      forall i | 0 <= i < |s| ensures CutsNothing(s, i) {
        if s[i] == '\r' { SpaceTail(s, k, i); }
      }
    }
    if ReturnsHarmless(s) { assert CutsNothing(s, k); }
  }

  lemma {:induction false} SpaceHasNoData(rest: string, s: string, k: nat)
    requires k < |s| && rest == s[k + 1..] && AllSpace(s[k..])
    ensures NoData(rest)
  {
    forall i | 0 <= i < |rest| ensures IsSpace(rest[i]) { assert rest[i] == s[k..][i + 1]; }
    assert "data:"[0] == 'd' && !IsSpace('d');
    forall i | 0 <= i < |rest| ensures !IsData(rest[i..]) {
      assert rest[i..][0] == rest[i] != 'd';
    }
    assert rest[0..] == rest;
  }

  // ---------- A whole text ----------

  /** Stretches, each ended by a line feed. */
  function Joined(stretches: seq<string>): string {
    if stretches == [] then "" else stretches[0] + "\n" + Joined(stretches[1..])
  }

  lemma {:induction false} SplitIsJoined(s: string)
    requires s == "" || s[|s| - 1] == '\n'
    ensures s == "" || Split(s)[|Split(s)| - 1] == ""
    ensures var stretches := Split(s)[..|Split(s)| - 1];
            s == Joined(stretches) && forall i | 0 <= i < |stretches| :: OneStretch(stretches[i])
    decreases |s|
  {
    hide OneStretch;
    if s != "" {
      var c, rest := s[0], s[1..];
      SplitIsJoined(rest);
      assert s == [c] + rest;
      SplitCons(s, c, rest, Split(rest)[..|Split(rest)| - 1]);
    }
  }

  lemma {:induction false} SplitCons(s: string, c: char, rest: string, stretches: seq<string>)
    requires s == [c] + rest && stretches == Split(rest)[..|Split(rest)| - 1]
    requires rest == "" ==> c == '\n'
    requires rest != "" ==> Split(rest)[|Split(rest)| - 1] == ""
    requires rest == Joined(stretches) && forall i | 0 <= i < |stretches| :: OneStretch(stretches[i])
    ensures Split(s)[|Split(s)| - 1] == ""
    ensures var mine := Split(s)[..|Split(s)| - 1];
            s == Joined(mine) && forall i | 0 <= i < |mine| :: OneStretch(mine[i])
  {
    hide Joined;
    var later := Split(rest);
    assert s[0] == c && s[1..] == rest;
    if c == '\n' {
      assert Split(s) == [""] + later;
      assert Split(s)[..|Split(s)| - 1] == [""] + stretches;
      BlankFirst(stretches);
    } else {
      NothingJoined();
      assert stretches != [];
      assert Split(s) == [[c] + later[0]] + later[1..];
      assert Split(s)[..|Split(s)| - 1] == [[c] + stretches[0]] + stretches[1..];
      FirstGrows(stretches, c);
    }
  }

  lemma {:induction false} NothingJoined()
    ensures Joined([]) == ""
  {}

  lemma {:induction false} BlankFirst(stretches: seq<string>)
    ensures Joined([""] + stretches) == "\n" + Joined(stretches)
  {
    assert ([""] + stretches)[1..] == stretches;
  }

  lemma {:induction false} FirstGrows(stretches: seq<string>, c: char)
    requires stretches != [] && c != '\n' && forall i | 0 <= i < |stretches| :: OneStretch(stretches[i])
    ensures var mine := [[c] + stretches[0]] + stretches[1..];
            Joined(mine) == [c] + Joined(stretches) && forall i | 0 <= i < |mine| :: OneStretch(mine[i])
  {
    var mine := [[c] + stretches[0]] + stretches[1..];
    assert mine[1..] == stretches[1..];
    Assoc([c], stretches[0], "\n", Joined(stretches[1..]));
    assert OneStretch(stretches[0]);
    forall i | 0 <= i < |mine| ensures OneStretch(mine[i]) {
      if i > 0 { assert mine[i] == stretches[i]; }
    }
  }

  lemma {:induction false} Halves<T>(a: seq<T>, b: seq<T>, a': seq<T>, b': seq<T>)
    requires |a| >= |a'| && |b| >= |b'|
    ensures |a + b| >= |a' + b'| && (a + b == a' + b' <==> a == a' && b == b')
  {
    if a + b == a' + b' {
      assert |a| == |a'|;
      assert (a + b)[..|a|] == a && (a + b)[|a|..] == b;
      assert (a' + b')[..|a'|] == a' && (a' + b')[|a'|..] == b';
    }
  }

  ghost predicate AllHarmless(stretches: seq<string>) {
    forall i | 0 <= i < |stretches| :: ReturnsHarmless(stretches[i])
  }

  lemma {:induction false} StretchesAgreeIff(stretches: seq<string>)
    requires forall i | 0 <= i < |stretches| :: OneStretch(stretches[i])
    ensures var std := DataLines(StdLines(Joined(stretches)));
            && |std| >= |DataLines(stretches)|
            && (std == DataLines(stretches) <==> AllHarmless(stretches))
    decreases |stretches|
  {
    hide StdLines, LinePayload, ReturnsHarmless;
    if stretches == [] {
      NothingHasNoLines();
      NothingIsNoData();
    } else {
      var first, later := stretches[0], stretches[1..];
      StretchAgreesIff(first);
      StretchesAgreeIff(later);
      StdLinesAcross(first + "\n", Joined(later));
      DataLinesAppend(StdLines(first + "\n"), StdLines(Joined(later)));
      Halves(DataLines(StdLines(first + "\n")), DataLines(StdLines(Joined(later))), LinePayload(first), DataLines(later));
      assert stretches == [first] + later;
    }
  }

  /** No data line stands before a blank one. */
  ghost predicate NoDataDispatched(lines: seq<string>) {
    forall i, j | 0 <= i < j < |lines| && lines[j] == "" :: !IsData(lines[i])
  }

  lemma {:induction false} NothingDispatchedIff(lines: seq<string>)
    ensures DataLines(Dispatched(lines)) == [] <==> NoDataDispatched(lines)
    decreases |lines|
  {
    if lines == [] {
    } else if lines[|lines| - 1] == "" {
      NoneIsData(lines);
      if NoDataDispatched(lines) {
        forall i | 0 <= i < |lines| ensures !IsData(lines[i]) {
          if i == |lines| - 1 { assert lines[i] == ""; }
        }
      }
    } else {
      var front := lines[..|lines| - 1];
      NothingDispatchedIff(front);
      if NoDataDispatched(front) {
        forall i, j | 0 <= i < j < |lines| && lines[j] == "" ensures !IsData(lines[i]) {
          assert front[j] == "" && front[i] == lines[i];
        }
      }
    }
  }

  lemma {:induction false} NoneIsData(lines: seq<string>)
    ensures DataLines(lines) == [] <==> forall i | 0 <= i < |lines| :: !IsData(lines[i])
  {
    hide IsData, LinePayload;
    if lines != [] {
      var rest := lines[1..];
      NoneIsData(rest);
      DataIff(lines[0]);
      assert forall i | 0 <= i < |rest| :: rest[i] == lines[i + 1];
      if forall i | 0 <= i < |rest| :: !IsData(rest[i]) {
        forall i | 1 <= i < |lines| ensures !IsData(lines[i]) { assert rest[i - 1] == lines[i]; }
      }
    }
  }

  /** A line begins at `i`. */
  predicate Starts(s: string, i: nat)
    requires i <= |s|
  {
    i == 0 || s[i - 1] == '\n' || (s[i - 1] == '\r' && (i == |s| || s[i] != '\n'))
  }

  /** An empty line begins at `i`, and is complete. */
  predicate BlankLineFrom(s: string, i: nat)
    requires i < |s|
  {
    Starts(s, i) && EndsLine(s[i])
  }

  /** No data line begins before a blank one. */
  predicate NoDataBeforeBlank(s: string) {
    forall i, j | 0 <= i < j < |s| && Starts(s, i) && BlankLineFrom(s, j) :: !IsData(s[i..])
  }

  ghost predicate SomeBlank(s: string) { exists j | 0 <= j < |s| :: BlankLineFrom(s, j) }

  /** Lines begin at the front, and where they begin in what follows the first line. */
  lemma {:induction false} StartsAfter(s: string, k: nat)
    requires FirstEnd(s) == Some(k)
    ensures var past := PastEnd(s, k);
            && past <= |s| && !(exists i | 0 < i < past :: Starts(s, i))
            && (forall i | past <= i <= |s| :: Starts(s, i) <==> Starts(s[past..], i - past))
            && (forall i | past <= i < |s| :: BlankLineFrom(s, i) <==> BlankLineFrom(s[past..], i - past))
            && (BlankLineFrom(s, 0) <==> k == 0)
  {
    var past := PastEnd(s, k);
    assert forall i | 0 <= i < |s[past..]| :: s[past..][i] == s[past + i];
  }

  lemma {:induction false} SomeBlankIff(s: string)
    ensures SomeBlank(s) <==> "" in StdLines(s)
    decreases |s|
  {
    hide Starts, BlankLineFrom, SomeBlank, StdLines;
    match FirstEnd(s)
    case None =>
      NoEndNoBlank(s);
      NoLines(s);
    case Some(k) =>
      SomeBlankIff(s[PastEnd(s, k)..]);
      LinesFrom(s, k);
      FirstBlank(s, k);
  }

  lemma {:induction false} FirstBlank(s: string, k: nat)
    requires FirstEnd(s) == Some(k)
    ensures SomeBlank(s) <==> k == 0 || SomeBlank(s[PastEnd(s, k)..])
  {
    hide Starts, BlankLineFrom;
    var past := PastEnd(s, k);
    var rest := s[past..];
    StartsAfter(s, k);
    NoBlankBefore(s, past);
    if SomeBlank(rest) {
      var j :| 0 <= j < |rest| && BlankLineFrom(rest, j);
      assert BlankLineFrom(s, past + j);
    }
    if SomeBlank(s) && k != 0 {
      var j :| 0 <= j < |s| && BlankLineFrom(s, j);
      assert BlankLineFrom(rest, j - past);
    }
  }

  lemma {:induction false} NoEndNoBlank(s: string)
    requires FirstEnd(s).None?
    ensures !SomeBlank(s)
  {}

  lemma {:induction false} NoBlankBefore(s: string, past: nat)
    requires past <= |s| && forall i | 0 < i < past :: !Starts(s, i)
    ensures forall i | 0 < i < past :: !BlankLineFrom(s, i)
  {}

  /** Told by the lines and told by the text. */
  lemma {:induction false} NoDataBeforeBlankIff(s: string)
    ensures NoDataDispatched(StdLines(s)) <==> NoDataBeforeBlank(s)
    decreases |s|
  {
    hide Starts, BlankLineFrom, IsData, StdLines;
    match FirstEnd(s)
    case None =>
      NoEndNoBlank(s);
      NoLines(s);
    case Some(k) =>
      var past := PastEnd(s, k);
      var rest := s[past..];
      StartsAfter(s, k);
      NoBlankBefore(s, past);
      NoDataBeforeBlankIff(rest);
      SomeBlankIff(rest);
      FirstPiece(s, k);
      LinesFrom(s, k);
      FirstLineFirst(s[..k], StdLines(rest));
      StartsFirst(s, past);
  }

  lemma {:induction false} NoLines(s: string)
    requires FirstEnd(s).None?
    ensures StdLines(s) == []
  {}

  lemma {:induction false} LinesFrom(s: string, k: nat)
    requires FirstEnd(s) == Some(k)
    ensures StdLines(s) == [s[..k]] + StdLines(s[PastEnd(s, k)..])
  {}

  lemma {:induction false} FirstLineFirst(first: string, later: seq<string>)
    ensures NoDataDispatched([first] + later) <==> NoDataDispatched(later) && ("" in later ==> !IsData(first))
  {
    hide IsData;
    var lines := [first] + later;
    if NoDataDispatched(lines) {
      forall i, j | 0 <= i < j < |later| && later[j] == "" ensures !IsData(later[i]) {
        assert lines[i + 1] == later[i] && lines[j + 1] == later[j];
      }
      if "" in later {
        var j :| 0 <= j < |later| && later[j] == "";
        assert lines[j + 1] == "" && lines[0] == first;
      }
    }
  }

  /** The same, told by where lines begin. */
  lemma {:induction false} StartsFirst(s: string, past: nat)
    requires 0 < past <= |s| && (forall i | 0 < i < past :: !Starts(s, i) && !BlankLineFrom(s, i))
    requires forall i | past <= i <= |s| :: Starts(s, i) <==> Starts(s[past..], i - past)
    requires forall i | past <= i < |s| :: BlankLineFrom(s, i) <==> BlankLineFrom(s[past..], i - past)
    ensures NoDataBeforeBlank(s) <==> NoDataBeforeBlank(s[past..]) && (SomeBlank(s[past..]) ==> !IsData(s))
  {
    hide BlankLineFrom, IsData;
    var rest := s[past..];
    assert s[0..] == s && Starts(s, 0);
    if NoDataBeforeBlank(s) {
      forall i, j | 0 <= i < j < |rest| && Starts(rest, i) && BlankLineFrom(rest, j) ensures !IsData(rest[i..]) {
        assert Starts(s, past + i) && BlankLineFrom(s, past + j) && s[past + i..] == rest[i..];
      }
      if SomeBlank(rest) {
        var j :| 0 <= j < |rest| && BlankLineFrom(rest, j);
        assert BlankLineFrom(s, past + j);
      }
    }
    if NoDataBeforeBlank(rest) && (SomeBlank(rest) ==> !IsData(s)) {
      forall i, j | 0 <= i < j < |s| && Starts(s, i) && BlankLineFrom(s, j) ensures !IsData(s[i..]) {
        assert BlankLineFrom(rest, j - past);
        if i > 0 { assert Starts(rest, i - past) && rest[i - past..] == s[i..]; }
      }
    }
  }

  /** The part of a text that the framer has taken events from. */
  function Taken(text: string): string { Terminated(Frame(text).events) }

  lemma {:induction false} TakenEndsLine(events: seq<string>)
    ensures var t := Terminated(events); t == "" || (|t| >= 2 && t[|t| - 1] == '\n' && t[|t| - 2] == '\n')
  {
    if events != [] { TakenEndsLine(events[1..]); }
  }

  lemma {:induction false} LastLineBlank(t: string)
    requires |t| >= 2 && t[|t| - 1] == '\n' && t[|t| - 2] == '\n'
    ensures StdLines(t) != [] && StdLines(t)[|StdLines(t)| - 1] == ""
  {
    var front, last := t[..|t| - 1], "\n";
    assert t == front + last && front[|front| - 1] == '\n';
    StdLinesAcross(front, last);
    FirstEndIs(last, 0);
    assert last[..0] == "" && last[1..] == "";
    NothingHasNoLines();
    assert StdLines(last) == [""] + [];
  }

  /** The framer agrees with the standard: in the events it has taken no carriage return cuts a data line
    * short or begins one, and in the rest no data line begins before a blank one. */
  ghost predicate ReadsAlike(text: string) {
    && AllHarmless(Split(Taken(text))[..|Split(Taken(text))| - 1])
    && NoDataBeforeBlank(Frame(text).rest)
  }

  /** For every text: the framer gives the payloads the standard's framing gives, if and only if the
    * carriage returns in it are harmless. */
  lemma {:induction false} FramesLikeTheStandardIff(text: string)
    ensures Payloads(text) == StdPayloads(text) <==> ReadsAlike(text)
  {
    hide StdLines, DataLines, Split, Frame, Terminated, AllHarmless, NoDataDispatched, NoDataBeforeBlank, Dispatched;
    var events, rest, taken := Frame(text).events, Frame(text).rest, Taken(text);
    FrameIsTheDecomposition(text, Frame(text));
    TextIsTaken(text);
    TakenEndsLine(events);
    SplitIsJoined(taken);
    var stretches := Split(taken)[..|Split(taken)| - 1];
    TerminatedDataLines(events);
    StretchesOf(taken);
    StretchesAgreeIff(stretches);
    NothingDispatchedIff(StdLines(rest));
    NoDataBeforeBlankIff(rest);
    NothingHasNoLines();
    if taken == "" {
      assert taken + rest == rest && [] + StdLines(rest) == StdLines(rest);
    } else {
      StdLinesAcross(taken, rest);
      LastLineBlank(taken);
    }
    assert StdLines(text) == StdLines(taken) + StdLines(rest);
    DispatchedAcross(StdLines(taken), StdLines(rest));
    DataLinesAppend(StdLines(taken), Dispatched(StdLines(rest)));
    Halves(DataLines(StdLines(taken)), DataLines(Dispatched(StdLines(rest))), DataLines(stretches), []);
    assert DataLines(stretches) + [] == DataLines(stretches);
  }

  lemma {:induction false} TextIsTaken(text: string)
    ensures text == Taken(text) + Frame(text).rest
  {
    FrameIsTheDecomposition(text, Frame(text));
  }

  lemma {:induction false} StretchesOf(s: string)
    requires s == "" || s[|s| - 1] == '\n'
    ensures DataLines(Split(s)) == DataLines(Split(s)[..|Split(s)| - 1])
  {
    hide Split;
    SplitIsJoined(s);
    var lines := Split(s);
    var last := lines[|lines| - 1];
    EmptySplit();
    assert lines == lines[..|lines| - 1] + [last];
    DataLinesAppend(lines[..|lines| - 1], [last]);
    DataOne(last);
    assert last == "";
    DataIff("");
  }

  lemma {:induction false} EmptySplit()
    ensures Split("") == [""]
  {}

  /** Without carriage returns the two always agree. */
  lemma {:induction false} LineFeedsAgree(text: string)
    requires '\r' !in text
    ensures Payloads(text) == StdPayloads(text)
  {
    hide StdLines, DataLines, Split, Frame, Payloads, StdPayloads, NoDataBeforeBlank, NoDataDispatched;
    FramesLikeTheStandardIff(text);
    TextIsTaken(text);
    TakenEndsLine(Frame(text).events);
    SplitIsJoined(Taken(text));
    var stretches := Split(Taken(text))[..|Split(Taken(text))| - 1];
    forall i | 0 <= i < |stretches| ensures ReturnsHarmless(stretches[i]) {
      JoinedHas(stretches, i);
      assert forall c | c in Taken(text) :: c in text;
    }
    FeedLines(Frame(text).rest);
    NoDataBeforeBlankIff(Frame(text).rest);
  }

  lemma {:induction false} JoinedHas(stretches: seq<string>, i: nat)
    requires i < |stretches|
    ensures forall c | c in stretches[i] :: c in Joined(stretches)
  {
    if i > 0 { JoinedHas(stretches[1..], i - 1); }
  }

  /** A rest without a blank pair has a blank line only at its very start. */
  lemma {:induction false} FeedLines(s: string)
    requires '\r' !in s && NoBlank(s)
    ensures NoDataDispatched(StdLines(s))
  {
    match FirstEnd(s)
    case None =>
    case Some(k) =>
      var rest := s[k + 1..];
      assert s[k] == '\n' && PastEnd(s, k) == k + 1;
      NoBlankInside(s, k + 1);
      forall j | 0 < j < |StdLines(s)| ensures StdLines(s)[j] != "" {
        assert StdLines(s)[j] == StdLines(rest)[j - 1];
      }
  }

  lemma {:induction false} NoBlankInside(s: string, from: nat)
    requires '\r' !in s && NoBlank(s) && 0 < from <= |s| && s[from - 1] == '\n'
    ensures forall j | 0 <= j < |StdLines(s[from..])| :: StdLines(s[from..])[j] != ""
    decreases |s| - from
  {
    var t := s[from..];
    assert forall i | 0 <= i < |t| :: t[i] == s[from + i];
    match FirstEnd(t)
    case None =>
    case Some(k) =>
      assert t[k] == '\n' && s[from + k] == '\n';
      assert !BlankAt(s, from - 1);
      assert PastEnd(t, k) == k + 1;
      assert t[k + 1..] == s[from + k + 1..];
      NoBlankInside(s, from + k + 1);
  }

  /** The failing case: an event framed as the standard allows, of any value, gives the framer nothing. */
  lemma {:induction false} ReturnFramedEventIsLost(value: string)
    requires forall i | 0 <= i < |value| :: !EndsLine(value[i])
    ensures var text := "data:" + value + "\r\n\r\n";
            Payloads(text) == [] && StdPayloads(text) == [Trim(value)]
  {
    hide StdLines, Frame, Trim;
    var line := "data:" + value;
    var text := line + "\r\n\r\n";
    assert forall i | 0 <= i < |line| :: !EndsLine(line[i]);
    ReturnFramed(line);
    var lines := [line, ""];
    assert line[5..] == value && IsData(line);
    assert lines[1..] == [""];
    DataOne("");
    DataIff("");
    assert DataLines(lines) == LinePayload(line) + DataLines([""]);
  }

  lemma {:induction false} ReturnFramed(line: string)
    requires forall i | 0 <= i < |line| :: !EndsLine(line[i])
    ensures var text := line + "\r\n\r\n"; Frame(text).events == [] && StdLines(text) == [line, ""]
  {
    var text := line + "\r\n\r\n";
    assert forall i | 0 <= i < |line| :: text[i] == line[i];
    assert NoBlank(text);
    FirstEndIs(text, |line|);
    assert text[..|line|] == line && text[|line| + 2..] == "\r\n";
    FirstEndIs("\r\n", 0);
    assert "\r\n"[..0] == "" && "\r\n"[2..] == "";
    NothingHasNoLines();
    assert StdLines("\r\n") == [""] + [];
    assert StdLines(text) == [line] + [""];
  }
}
