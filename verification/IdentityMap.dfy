/** The bitemporal identity map: edited by a directory sync, read by the live mismatch check and by the
  * historical attribution report. */
module IdentityMap {
  import opened Common

  type Time = nat

  datatype Key = Key(tenant: string, provider: string, providerUser: string)

  /** `internal_user_id` is a nullable column; `valid_to` is null while the mapping is active. */
  datatype Row = Row(key: Key, user: Option<string>, validFrom: Time, validTo: Option<Time>)

  /** The unique index on (tenant, provider, provider user, valid_from). */
  predicate KeysUnique(rows: seq<Row>) {
    forall i, j :: 0 <= i < j < |rows| ==> !(rows[i].key == rows[j].key && rows[i].validFrom == rows[j].validFrom)
  }

  // ---------- Queries: "the latest mapping such that" ----------

  datatype Mapping = Mapping(from: Time, user: Option<string>)

  function Better(a: Option<Mapping>, b: Option<Mapping>): Option<Mapping> {
    if a.None? then b else if b.None? then a else if a.value.from < b.value.from then b else a
  }

  function MappingOf(r: Row): Mapping { Mapping(r.validFrom, r.user) }

  /** `ORDER BY valid_from DESC LIMIT 1` over the rows of `k` that `pick` selects. */
  function Latest(rows: seq<Row>, k: Key, pick: Row -> bool): Option<Mapping> {
    if rows == [] then None
    else Better(if rows[0].key == k && pick(rows[0]) then Some(MappingOf(rows[0])) else None, Latest(rows[1..], k, pick))
  }

  function Active(): Row -> bool { (r: Row) => r.validTo.None? }

  predicate OpenAt(r: Row, at: Time) { r.validTo.None? || r.validTo.value > at }

  function OpenAfter(at: Time): Row -> bool { (r: Row) => OpenAt(r, at) }

  function ValidAt(at: Time): Row -> bool { (r: Row) => r.validFrom <= at && OpenAt(r, at) }

  function AsOf(rows: seq<Row>, k: Key, at: Time): Option<Mapping> { Latest(rows, k, ValidAt(at)) }

  predicate Selected(r: Row, k: Key, pick: Row -> bool) { r.key == k && pick(r) }

  /** What the recursion means: a selected row, none of the selected ones being later. */
  lemma {:induction false} LatestIsLatest(rows: seq<Row>, k: Key, pick: Row -> bool)
    ensures Latest(rows, k, pick).None? <==> forall i :: 0 <= i < |rows| ==> !Selected(rows[i], k, pick)
    ensures Latest(rows, k, pick).Some? ==>
              && (exists i :: 0 <= i < |rows| && Selected(rows[i], k, pick) && MappingOf(rows[i]) == Latest(rows, k, pick).value)
              && (forall i :: 0 <= i < |rows| && Selected(rows[i], k, pick) ==> rows[i].validFrom <= Latest(rows, k, pick).value.from)
  {
    if rows != [] {
      LatestIsLatest(rows[1..], k, pick);
      assert forall i :: 0 < i < |rows| ==> rows[i] == rows[1..][i - 1];
      if Latest(rows[1..], k, pick).Some? {
        var i :| 0 <= i < |rows[1..]| && Selected(rows[1..][i], k, pick) && MappingOf(rows[1..][i]) == Latest(rows[1..], k, pick).value;
        assert rows[i + 1] == rows[1..][i];
      }
      if Selected(rows[0], k, pick) { assert MappingOf(rows[0]) == MappingOf(rows[0]); }
    }
  }

  lemma {:induction false} LatestAppend(a: seq<Row>, b: seq<Row>, k: Key, pick: Row -> bool)
    ensures Latest(a + b, k, pick) == Better(Latest(a, k, pick), Latest(b, k, pick))
  {
    if a == [] {
      assert a + b == b;
    } else {
      assert (a + b)[1..] == a[1..] + b;
      LatestAppend(a[1..], b, k, pick);
    }
  }

  /** Two tables whose rows are selected alike, and read alike, have the same latest mapping. */
  lemma {:induction false} LatestPointwise(rows: seq<Row>, rows': seq<Row>, k: Key, pick: Row -> bool, pick': Row -> bool)
    requires |rows| == |rows'|
    requires forall i :: 0 <= i < |rows| ==> Selected(rows[i], k, pick) == Selected(rows'[i], k, pick')
    requires forall i :: 0 <= i < |rows| && Selected(rows[i], k, pick) ==> MappingOf(rows[i]) == MappingOf(rows'[i])
    ensures Latest(rows, k, pick) == Latest(rows', k, pick')
  {
    if rows != [] {
      assert forall i :: 0 <= i < |rows[1..]| ==> rows[1..][i] == rows[i + 1] && rows'[1..][i] == rows'[i + 1];
      LatestPointwise(rows[1..], rows'[1..], k, pick, pick');
      assert Selected(rows[0], k, pick) == Selected(rows'[0], k, pick');
    }
  }

  // ---------- The batched, first-wins lookup ----------

  function Where(rows: seq<Row>, pick: Row -> bool): seq<Row> {
    if rows == [] then [] else (if pick(rows[0]) then [rows[0]] else []) + Where(rows[1..], pick)
  }

  function InsertDesc(r: Row, sorted: seq<Row>): seq<Row> {
    if sorted == [] || sorted[0].validFrom <= r.validFrom then [r] + sorted
    else [sorted[0]] + InsertDesc(r, sorted[1..])
  }

  /** `ORDER BY valid_from DESC`. */
  function OrderDesc(rows: seq<Row>): seq<Row> {
    if rows == [] then [] else InsertDesc(rows[0], OrderDesc(rows[1..]))
  }

  function FirstFor(rows: seq<Row>, k: Key): Option<Mapping> {
    if rows == [] then None else if rows[0].key == k then Some(MappingOf(rows[0])) else FirstFor(rows[1..], k)
  }

  predicate Descending(rows: seq<Row>) {
    forall i, j :: 0 <= i < j < |rows| ==> rows[i].validFrom >= rows[j].validFrom
  }

  lemma {:induction false} FirstForInsert(r: Row, sorted: seq<Row>, k: Key)
    requires Descending(sorted)
    ensures Descending(InsertDesc(r, sorted))
    ensures FirstFor(InsertDesc(r, sorted), k)
         == Better(if r.key == k then Some(MappingOf(r)) else None, FirstFor(sorted, k))
    ensures forall x :: x in InsertDesc(r, sorted) <==> x == r || x in sorted
  {
    if sorted != [] { FirstForBound(sorted, k); }
    if sorted != [] && sorted[0].validFrom > r.validFrom {
      FirstForInsert(r, sorted[1..], k);
      var rest := InsertDesc(r, sorted[1..]);
      assert ([sorted[0]] + rest)[1..] == rest;
      forall i | 0 <= i < |rest| ensures rest[i].validFrom <= sorted[0].validFrom {
        assert rest[i] in rest;
        if rest[i] != r { var j :| 0 <= j < |sorted[1..]| && sorted[1..][j] == rest[i]; assert sorted[j + 1] == rest[i]; }
      }
    } else {
      assert ([r] + sorted)[1..] == sorted;
    }
  }

  lemma {:induction false} FirstForBound(sorted: seq<Row>, k: Key)
    requires Descending(sorted) && sorted != []
    ensures FirstFor(sorted, k).Some? ==> FirstFor(sorted, k).value.from <= sorted[0].validFrom
  {
    if sorted[0].key != k && |sorted| > 1 { FirstForBound(sorted[1..], k); }
  }

  /** `tenant_id = $1 AND provider = $2 AND ...`. */
  function Scoped(tenant: string, provider: string, pick: Row -> bool): Row -> bool {
    (r: Row) => r.key.tenant == tenant && r.key.provider == provider && pick(r)
  }

  lemma {:induction false} FirstForWhere(rows: seq<Row>, tenant: string, provider: string, pick: Row -> bool, k: Key)
    requires k.tenant == tenant && k.provider == provider
    ensures var q := OrderDesc(Where(rows, Scoped(tenant, provider, pick)));
            && Descending(q) && FirstFor(q, k) == Latest(rows, k, pick)
            && forall x :: x in q <==> x in rows && Scoped(tenant, provider, pick)(x)
  {
    if rows != [] {
      var f := Scoped(tenant, provider, pick);
      FirstForWhere(rows[1..], tenant, provider, pick, k);
      assert rows == [rows[0]] + rows[1..];
      if f(rows[0]) {
        var rest := Where(rows[1..], f);
        assert ([rows[0]] + rest)[1..] == rest;
        FirstForInsert(rows[0], OrderDesc(rest), k);
      } else {
        assert Where(rows, f) == Where(rows[1..], f);
      }
    }
  }

  type Pairs = seq<(string, string)>

  /** Decoding the result rows as `(String, String)`: a null user is an error. */
  function Decode(rows: seq<Row>): Option<Pairs> {
    if rows == [] then Some([])
    else if rows[0].user.None? then None
    else match Decode(rows[1..])
      case None => None
      case Some(rest) => Some([(rows[0].key.providerUser, rows[0].user.value)] + rest)
  }

  function FirstWins(pairs: Pairs): map<string, string> {
    if pairs == [] then map[] else FirstWins(pairs[1..])[pairs[0].0 := pairs[0].1]
  }

  /** The `entry(..).or_insert(..)` loop. */
  method CollectFirstWins(pairs: Pairs) returns (m: map<string, string>)
    ensures m == FirstWins(pairs)
  {
    m := map[];
    for i := 0 to |pairs|
      invariant FirstWins(pairs[i..]) + m == FirstWins(pairs)
    {
      assert pairs[i..][1..] == pairs[i + 1..];
      if pairs[i].0 !in m {
        m := m[pairs[i].0 := pairs[i].1];
      }
    }
  }

  lemma {:induction false} FirstWinsLookup(rows: seq<Row>, tenant: string, provider: string, u: string)
    requires Decode(rows).Some?
    requires forall r :: r in rows ==> r.key.tenant == tenant && r.key.provider == provider
    ensures var m := FirstWins(Decode(rows).value);
            var first := FirstFor(rows, Key(tenant, provider, u));
            && (u in m <==> first.Some?)
            && (u in m ==> first.value.user == Some(m[u]))
  {
    if rows != [] {
      assert rows[0] in rows;
      FirstWinsLookup(rows[1..], tenant, provider, u);
      var rest := Decode(rows[1..]).value;
      assert ([(rows[0].key.providerUser, rows[0].user.value)] + rest)[1..] == rest;
    }
  }

  lemma {:induction false} DecodeFailsOnNull(rows: seq<Row>)
    ensures Decode(rows).None? <==> exists r :: r in rows && r.user.None?
  {
    if rows != [] {
      DecodeFailsOnNull(rows[1..]);
      assert rows[0] in rows && forall r :: r in rows[1..] ==> r in rows;
      assert forall r :: r in rows ==> r == rows[0] || r in rows[1..];
    }
  }

  /** The whole batched query: scope, order, decode, keep the first per provider user. */
  function Load(rows: seq<Row>, tenant: string, provider: string, pick: Row -> bool): Option<map<string, string>> {
    match Decode(OrderDesc(Where(rows, Scoped(tenant, provider, pick))))
    case None => None
    case Some(pairs) => Some(FirstWins(pairs))
  }

  function UserOf(m: Option<Mapping>): Option<string> { if m.Some? then m.value.user else None }

  function Get(m: map<string, string>, u: string): Option<string> { if u in m then Some(m[u]) else None }

  /** The fast form against the simple one: the batch holds, per provider user, the latest mapping. */
  lemma {:induction false} LoadIsLatest(rows: seq<Row>, tenant: string, provider: string, pick: Row -> bool, u: string)
    requires Load(rows, tenant, provider, pick).Some?
    ensures var latest := Latest(rows, Key(tenant, provider, u), pick);
            && Get(Load(rows, tenant, provider, pick).value, u) == UserOf(latest)
            && (latest.Some? ==> latest.value.user.Some?)
  {
    var q := OrderDesc(Where(rows, Scoped(tenant, provider, pick)));
    FirstForWhere(rows, tenant, provider, pick, Key(tenant, provider, u));
    FirstWinsLookup(q, tenant, provider, u);
  }

  /** The batch fails exactly when a row it selects has no user. */
  lemma {:induction false} LoadFailsOnNull(rows: seq<Row>, tenant: string, provider: string, pick: Row -> bool)
    ensures Load(rows, tenant, provider, pick).None? <==>
            exists r :: r in rows && Scoped(tenant, provider, pick)(r) && r.user.None?
  {
    FirstForWhere(rows, tenant, provider, pick, Key(tenant, provider, ""));
    DecodeFailsOnNull(OrderDesc(Where(rows, Scoped(tenant, provider, pick))));
  }

  // ---------- The directory sync ----------

  datatype DirectoryEntry = DirectoryEntry(providerUser: string, user: string)

  datatype Report = Report(inserted: nat, repointed: nat, kept: nat)

  function Inserted(rows: seq<Row>, r: Row): Option<seq<Row>> {
    if exists x :: x in rows && x.key == r.key && x.validFrom == r.validFrom then None else Some(rows + [r])
  }

  function CloseRow(r: Row, k: Key, now: Time): Row {
    if r.key == k && r.validTo.None? then r.(validTo := Some(now)) else r
  }

  function Closed(rows: seq<Row>, k: Key, now: Time): (r: seq<Row>)
    ensures |r| == |rows|
    ensures forall i :: 0 <= i < |rows| ==> r[i] == CloseRow(rows[i], k, now)
  {
    seq(|rows|, i requires 0 <= i < |rows| => CloseRow(rows[i], k, now))
  }

  function NewRow(k: Key, user: string, now: Time): Row { Row(k, Some(user), now, None) }

  /** One directory entry, against the mappings loaded before the loop. */
  function SyncEntry(rows: seq<Row>, k: Key, user: string, current: Option<string>, now: Time): Option<seq<Row>> {
    match current
    case None => Inserted(rows, NewRow(k, user, now))
    case Some(u) => if u == user then Some(rows) else Inserted(Closed(rows, k, now), NewRow(k, user, now))
  }

  function Tally(report: Report, user: string, current: Option<string>): Report {
    match current
    case None => report.(inserted := report.inserted + 1)
    case Some(u) => if u == user then report.(kept := report.kept + 1) else report.(repointed := report.repointed + 1)
  }

  /** The loop over the entries; `None` is an index violation, which rolls everything back. */
  function SyncLoop(rows: seq<Row>, tenant: string, provider: string, active: map<string, string>,
                    entries: seq<DirectoryEntry>, now: Time, report: Report): Option<(seq<Row>, Report)>
    decreases |entries|
  {
    if entries == [] then Some((rows, report))
    else
      var e := entries[0];
      var current := Get(active, e.providerUser);
      match SyncEntry(rows, Key(tenant, provider, e.providerUser), e.user, current, now)
      case None => None
      case Some(rows') => SyncLoop(rows', tenant, provider, active, entries[1..], now, Tally(report, e.user, current))
  }

  function Sync(rows: seq<Row>, tenant: string, provider: string, entries: seq<DirectoryEntry>, now: Time): Option<(seq<Row>, Report)> {
    match Load(rows, tenant, provider, Active())
    case None => None
    case Some(active) => SyncLoop(rows, tenant, provider, active, entries, now, Report(0, 0, 0))
  }

  class IdentityStore {
    var rows: seq<Row>

    constructor (rows: seq<Row>)
      ensures this.rows == rows
    {
      this.rows := rows;
    }

    /** One transaction: on failure the table is as before. `now()` is fixed for its whole length. */
    method SyncIdentityDirectory(tenant: string, provider: string, entries: seq<DirectoryEntry>, now: Time)
      returns (r: Option<Report>)
      modifies this
      ensures match Sync(old(rows), tenant, provider, entries, now)
              case None => r == None && rows == old(rows)
              case Some((rows', report)) => r == Some(report) && rows == rows'
    {
      var decoded := Decode(OrderDesc(Where(rows, Scoped(tenant, provider, Active()))));
      if decoded.None? { return None; }
      var active := CollectFirstWins(decoded.value);
      var table, report := rows, Report(0, 0, 0);
      for i := 0 to |entries|
        invariant SyncLoop(table, tenant, provider, active, entries[i..], now, report)
               == SyncLoop(rows, tenant, provider, active, entries, now, Report(0, 0, 0))
        invariant rows == old(rows)
      {
        var entry := entries[i];
        var k := Key(tenant, provider, entry.providerUser);
        assert entries[i..][1..] == entries[i + 1..];
        var written: Option<seq<Row>>;
        if entry.providerUser !in active {
          written := Inserted(table, NewRow(k, entry.user, now));
          report := report.(inserted := report.inserted + 1);
        } else if active[entry.providerUser] == entry.user {
          written := Some(table);
          report := report.(kept := report.kept + 1);
        } else {
          written := Inserted(Closed(table, k, now), NewRow(k, entry.user, now));
          report := report.(repointed := report.repointed + 1);
        }
        if written.None? { return None; }
        table := written.value;
      }
      rows := table;
      r := Some(report);
    }
  }

  // ---------- What one entry does ----------

  /** Every old row is kept, at most closed at `now`; every new row starts at `now` under a written key. */
  ghost predicate Amends(rows: seq<Row>, rows': seq<Row>, keys: set<Key>, now: Time) {
    && |rows| <= |rows'|
    && (forall i :: 0 <= i < |rows| ==> rows'[i] == rows[i] || (rows[i].key in keys && rows'[i] == CloseRow(rows[i], rows[i].key, now)))
    && (forall i :: |rows| <= i < |rows'| ==> rows'[i].key in keys && rows'[i].validFrom == now && (rows'[i].validTo.Some? ==> rows'[i].validTo.value == now))
  }

  lemma {:induction false} AmendsTrans(a: seq<Row>, b: seq<Row>, c: seq<Row>, k1: set<Key>, k2: set<Key>, now: Time)
    requires Amends(a, b, k1, now) && Amends(b, c, k2, now)
    ensures Amends(a, c, k1 + k2, now)
  {}

  lemma {:induction false} EntryAmends(rows: seq<Row>, k: Key, user: string, current: Option<string>, now: Time)
    requires SyncEntry(rows, k, user, current, now).Some? && KeysUnique(rows)
    ensures Amends(rows, SyncEntry(rows, k, user, current, now).value, {k}, now)
    ensures KeysUnique(SyncEntry(rows, k, user, current, now).value)
  {
    var rows' := SyncEntry(rows, k, user, current, now).value;
    forall i, j | 0 <= i < j < |rows'| ensures !(rows'[i].key == rows'[j].key && rows'[i].validFrom == rows'[j].validFrom) {
      if j < |rows| {
        assert !(rows[i].key == rows[j].key && rows[i].validFrom == rows[j].validFrom);
      } else {
        assert rows'[i] in rows'[..|rows|];
      }
    }
  }

  function KeysOf(tenant: string, provider: string, entries: seq<DirectoryEntry>): set<Key> {
    set e | e in entries :: Key(tenant, provider, e.providerUser)
  }

  lemma {:induction false} LoopAmends(rows: seq<Row>, tenant: string, provider: string, active: map<string, string>,
                                      entries: seq<DirectoryEntry>, now: Time, report: Report)
    requires KeysUnique(rows) && SyncLoop(rows, tenant, provider, active, entries, now, report).Some?
    ensures var (rows', report') := SyncLoop(rows, tenant, provider, active, entries, now, report).value;
            && Amends(rows, rows', KeysOf(tenant, provider, entries), now) && KeysUnique(rows')
            && report'.inserted + report'.repointed + report'.kept
               == report.inserted + report.repointed + report.kept + |entries|
            && |rows'| + report.inserted + report.repointed == |rows| + report'.inserted + report'.repointed
    decreases |entries|
  {
    if entries != [] {
      var e := entries[0];
      var k := Key(tenant, provider, e.providerUser);
      var current := Get(active, e.providerUser);
      var rows1 := SyncEntry(rows, k, e.user, current, now).value;
      EntryAmends(rows, k, e.user, current, now);
      LoopAmends(rows1, tenant, provider, active, entries[1..], now, Tally(report, e.user, current));
      var rows2 := SyncLoop(rows1, tenant, provider, active, entries[1..], now, Tally(report, e.user, current)).value.0;
      AmendsTrans(rows, rows1, rows2, {k}, KeysOf(tenant, provider, entries[1..]), now);
      assert {k} + KeysOf(tenant, provider, entries[1..]) == KeysOf(tenant, provider, entries) by {
        assert entries == [e] + entries[1..];
      }
    }
  }

  /** Conservation and frame: every entry is counted once, one row is added per write, rows of other
    * principals, providers and tenants are untouched, and no row is ever lost. */
  lemma {:induction false} SyncAmends(rows: seq<Row>, tenant: string, provider: string, entries: seq<DirectoryEntry>, now: Time)
    requires KeysUnique(rows) && Sync(rows, tenant, provider, entries, now).Some?
    ensures var (rows', report) := Sync(rows, tenant, provider, entries, now).value;
            && Amends(rows, rows', KeysOf(tenant, provider, entries), now) && KeysUnique(rows')
            && report.inserted + report.repointed + report.kept == |entries|
            && |rows'| == |rows| + report.inserted + report.repointed
  {
    LoopAmends(rows, tenant, provider, Load(rows, tenant, provider, Active()).value, entries, now, Report(0, 0, 0));
  }

  /** What a sync reports, told by the mappings before it: the entries of provider users that had none, of
    * those mapped to someone else, and of those mapped to that user. */
  lemma {:induction false} ReportCounts(rows: seq<Row>, tenant: string, provider: string, entries: seq<DirectoryEntry>, now: Time)
    requires Sync(rows, tenant, provider, entries, now).Some?
    ensures var report := Sync(rows, tenant, provider, entries, now).value.1;
            var was := (e: DirectoryEntry) => UserOf(Latest(rows, Key(tenant, provider, e.providerUser), Active()));
            && report.inserted == |Places(entries, (e: DirectoryEntry) => was(e).None?)|
            && report.repointed == |Places(entries, (e: DirectoryEntry) => was(e).Some? && was(e).value != e.user)|
            && report.kept == |Places(entries, (e: DirectoryEntry) => was(e) == Some(e.user))|
  {
    var active := Load(rows, tenant, provider, Active()).value;
    forall u: string ensures Get(active, u) == UserOf(Latest(rows, Key(tenant, provider, u), Active())) {
      LoadIsLatest(rows, tenant, provider, Active(), u);
    }
    LoopCounts(rows, tenant, provider, active, entries, now, Report(0, 0, 0));
    var was := (e: DirectoryEntry) => UserOf(Latest(rows, Key(tenant, provider, e.providerUser), Active()));
    assert Places(entries, (e: DirectoryEntry) => was(e).None?) == Places(entries, (e: DirectoryEntry) => Get(active, e.providerUser).None?);
    assert Places(entries, (e: DirectoryEntry) => was(e).Some? && was(e).value != e.user)
        == Places(entries, (e: DirectoryEntry) => Get(active, e.providerUser).Some? && Get(active, e.providerUser).value != e.user);
    assert Places(entries, (e: DirectoryEntry) => was(e) == Some(e.user))
        == Places(entries, (e: DirectoryEntry) => Get(active, e.providerUser) == Some(e.user));
  }

  lemma {:induction false} LoopCounts(rows: seq<Row>, tenant: string, provider: string, active: map<string, string>,
                                      entries: seq<DirectoryEntry>, now: Time, report: Report)
    requires SyncLoop(rows, tenant, provider, active, entries, now, report).Some?
    ensures var after := SyncLoop(rows, tenant, provider, active, entries, now, report).value.1;
            && after.inserted == report.inserted + |Places(entries, (e: DirectoryEntry) => Get(active, e.providerUser).None?)|
            && after.repointed == report.repointed
               + |Places(entries, (e: DirectoryEntry) => Get(active, e.providerUser).Some? && Get(active, e.providerUser).value != e.user)|
            && after.kept == report.kept + |Places(entries, (e: DirectoryEntry) => Get(active, e.providerUser) == Some(e.user))|
    decreases |entries|
  {
    hide SyncEntry;
    if entries == [] {
      assert Places(entries, (e: DirectoryEntry) => Get(active, e.providerUser).None?) == {};
      assert Places(entries, (e: DirectoryEntry) => Get(active, e.providerUser).Some? && Get(active, e.providerUser).value != e.user) == {};
      assert Places(entries, (e: DirectoryEntry) => Get(active, e.providerUser) == Some(e.user)) == {};
    } else {
      var e := entries[0];
      var current := Get(active, e.providerUser);
      var rows1 := SyncEntry(rows, Key(tenant, provider, e.providerUser), e.user, current, now).value;
      LoopCounts(rows1, tenant, provider, active, entries[1..], now, Tally(report, e.user, current));
      PlacesCons(entries, (e: DirectoryEntry) => Get(active, e.providerUser).None?);
      PlacesCons(entries, (e: DirectoryEntry) => Get(active, e.providerUser).Some? && Get(active, e.providerUser).value != e.user);
      PlacesCons(entries, (e: DirectoryEntry) => Get(active, e.providerUser) == Some(e.user));
    }
  }

  // ---------- History is immutable ----------

  lemma {:induction false} AmendsKeepsHistory(rows: seq<Row>, rows': seq<Row>, keys: set<Key>, now: Time, k: Key, at: Time)
    requires Amends(rows, rows', keys, now) && at < now
    ensures AsOf(rows', k, at) == AsOf(rows, k, at)
  {
    var earlier, added := rows'[..|rows|], rows'[|rows|..];
    assert earlier + added == rows';
    LatestAppend(earlier, added, k, ValidAt(at));
    forall i | 0 <= i < |rows|
      ensures Selected(rows[i], k, ValidAt(at)) == Selected(earlier[i], k, ValidAt(at)) && MappingOf(rows[i]) == MappingOf(earlier[i])
    {
      assert earlier[i] == rows'[i];
    }
    LatestPointwise(rows, earlier, k, ValidAt(at), ValidAt(at));
    LatestIsLatest(added, k, ValidAt(at));
  }

  datatype SyncCall = SyncCall(tenant: string, provider: string, entries: seq<DirectoryEntry>, now: Time)

  /** A series of syncs; one that fails leaves the table alone. */
  function SyncAll(rows: seq<Row>, calls: seq<SyncCall>): seq<Row>
    decreases |calls|
  {
    if calls == [] then rows
    else match Sync(rows, calls[0].tenant, calls[0].provider, calls[0].entries, calls[0].now)
      case None => SyncAll(rows, calls[1..])
      case Some((rows', _)) => SyncAll(rows', calls[1..])
  }

  /** No sync, and no series of syncs, changes who a principal was at any earlier instant. */
  lemma {:induction false} HistoryIsImmutable(rows: seq<Row>, calls: seq<SyncCall>, k: Key, at: Time)
    requires KeysUnique(rows) && forall c :: c in calls ==> at < c.now
    ensures AsOf(SyncAll(rows, calls), k, at) == AsOf(rows, k, at) && KeysUnique(SyncAll(rows, calls))
    decreases |calls|
  {
    if calls != [] {
      var c := calls[0];
      assert c in calls;
      var r := Sync(rows, c.tenant, c.provider, c.entries, c.now);
      if r.Some? {
        SyncAmends(rows, c.tenant, c.provider, c.entries, c.now);
        AmendsKeepsHistory(rows, r.value.0, KeysOf(c.tenant, c.provider, c.entries), c.now, k, at);
        HistoryIsImmutable(r.value.0, calls[1..], k, at);
      } else {
        HistoryIsImmutable(rows, calls[1..], k, at);
      }
    }
  }

  // ---------- The attribution report ----------

  datatype Execution = Execution(tenant: string, provider: string, user: Option<string>, email: Option<string>, startedAt: Time)

  /** `internal_user_id <> (subquery)`: a null on either side is not a mismatch. */
  function Mismatched(rows: seq<Row>, x: Execution): bool {
    x.email.Some? && x.user.Some? &&
    var mapped := UserOf(AsOf(rows, Key(x.tenant, x.provider, x.email.value), x.startedAt));
    mapped.Some? && mapped != x.user
  }

  datatype Attribution = Attribution(attributed: nat, unattributed: nat, mismatched: nat)

  function VerifyAttribution(rows: seq<Row>, xs: seq<Execution>, tenant: string, provider: string): Attribution {
    if xs == [] then Attribution(0, 0, 0)
    else
      var rest := VerifyAttribution(rows, xs[1..], tenant, provider);
      var x := xs[0];
      if x.tenant != tenant || x.provider != provider then rest
      else Attribution(rest.attributed + (if x.user.Some? then 1 else 0),
                       rest.unattributed + (if x.user.None? then 1 else 0),
                       rest.mismatched + (if Mismatched(rows, x) then 1 else 0))
  }

  predicate Of(tenant: string, provider: string, x: Execution) { x.tenant == tenant && x.provider == provider }

  /** A mapping of the execution's email that was valid at its start. */
  predicate Applies(x: Execution, r: Row) {
    && x.email.Some? && r.key == Key(x.tenant, x.provider, x.email.value)
    && r.validFrom <= x.startedAt && (r.validTo.Some? ==> x.startedAt < r.validTo.value)
  }

  /** The latest of those names someone else. */
  ghost predicate NamesAnother(rows: seq<Row>, x: Execution, r: Row) {
    && r in rows && Applies(x, r) && x.user.Some? && r.user.Some? && r.user != x.user
    && forall other | other in rows && Applies(x, other) :: other.validFrom <= r.validFrom
  }

  ghost predicate MappedElsewhere(rows: seq<Row>, x: Execution) { exists r :: NamesAnother(rows, x, r) }

  lemma {:induction false} AppliesIsSelected(x: Execution, r: Row)
    requires x.email.Some?
    ensures Applies(x, r) <==> Selected(r, Key(x.tenant, x.provider, x.email.value), ValidAt(x.startedAt))
  {}

  /** The mapping the lookup picks is the latest that applies, and the only one from its instant. */
  lemma {:induction false} LatestApplies(rows: seq<Row>, x: Execution)
    requires KeysUnique(rows) && x.email.Some?
    ensures var latest := AsOf(rows, Key(x.tenant, x.provider, x.email.value), x.startedAt);
            forall r :: (r in rows && Applies(x, r) && forall other | other in rows && Applies(x, other) :: other.validFrom <= r.validFrom)
                        <==> (r in rows && Applies(x, r) && latest == Some(MappingOf(r)))
    ensures var latest := AsOf(rows, Key(x.tenant, x.provider, x.email.value), x.startedAt);
            latest.Some? ==> exists r :: r in rows && Applies(x, r) && latest == Some(MappingOf(r))
  {
    var k, pick := Key(x.tenant, x.provider, x.email.value), ValidAt(x.startedAt);
    var latest := AsOf(rows, k, x.startedAt);
    LatestIsLatest(rows, k, pick);
    forall r | r in rows ensures Applies(x, r) <==> Selected(r, k, pick) { AppliesIsSelected(x, r); }
    if latest.Some? {
      var i :| 0 <= i < |rows| && Selected(rows[i], k, pick) && MappingOf(rows[i]) == latest.value;
      assert rows[i] in rows && Applies(x, rows[i]);
      forall r | r in rows && Applies(x, r) ensures r.validFrom <= latest.value.from && (r.validFrom == latest.value.from ==> r == rows[i]) {
        var j :| 0 <= j < |rows| && rows[j] == r;
        assert Selected(rows[j], k, pick);
      }
    } else {
      forall r | r in rows ensures !Applies(x, r) {
        var j :| 0 <= j < |rows| && rows[j] == r;
        assert !Selected(rows[j], k, pick);
      }
    }
  }

  lemma {:induction false} MismatchedIff(rows: seq<Row>, x: Execution)
    requires KeysUnique(rows)
    ensures Mismatched(rows, x) <==> MappedElsewhere(rows, x)
  {
    if x.email.Some? {
      LatestApplies(rows, x);
      hide Applies, AsOf, KeysUnique;
      var latest := AsOf(rows, Key(x.tenant, x.provider, x.email.value), x.startedAt);
      if latest.Some? && Mismatched(rows, x) {
        var r :| r in rows && Applies(x, r) && latest == Some(MappingOf(r));
        assert NamesAnother(rows, x, r);
      }
    }
  }

  /** The report counts, of the tenant's executions with the provider, those with a user, those without,
    * and those whose email was at their start mapped to someone else than their user. */
  lemma {:induction false} AttributionCounts(rows: seq<Row>, xs: seq<Execution>, tenant: string, provider: string)
    requires KeysUnique(rows)
    ensures var a := VerifyAttribution(rows, xs, tenant, provider);
            && a.attributed == |Places(xs, (x: Execution) => Of(tenant, provider, x) && x.user.Some?)|
            && a.unattributed == |Places(xs, (x: Execution) => Of(tenant, provider, x) && x.user.None?)|
            && a.mismatched == |Places(xs, (x: Execution) => Of(tenant, provider, x) && MappedElsewhere(rows, x))|
            && a.attributed + a.unattributed == |Places(xs, (x: Execution) => Of(tenant, provider, x))|
            && a.mismatched <= a.attributed
    decreases |xs|
  {
    hide Mismatched, MappedElsewhere;
    if xs != [] {
      AttributionCounts(rows, xs[1..], tenant, provider);
      MismatchedIff(rows, xs[0]);
      OneMismatched(rows, xs[0]);
      PlacesCons(xs, (x: Execution) => Of(tenant, provider, x) && x.user.Some?);
      PlacesCons(xs, (x: Execution) => Of(tenant, provider, x) && x.user.None?);
      PlacesCons(xs, (x: Execution) => Of(tenant, provider, x) && MappedElsewhere(rows, x));
      PlacesCons(xs, (x: Execution) => Of(tenant, provider, x));
    } else {
      NoPlaces((x: Execution) => Of(tenant, provider, x) && x.user.Some?);
      NoPlaces((x: Execution) => Of(tenant, provider, x) && x.user.None?);
      NoPlaces((x: Execution) => Of(tenant, provider, x) && MappedElsewhere(rows, x));
      NoPlaces((x: Execution) => Of(tenant, provider, x));
    }
  }

  lemma {:induction false} NoPlaces(kind: Execution -> bool)
    ensures |Places([], kind)| == 0
  {}

  lemma {:induction false} OneMismatched(rows: seq<Row>, x: Execution)
    ensures Mismatched(rows, x) ==> x.user.Some?
  {}

  /** Reports about the past do not move under later syncs. */
  lemma {:induction false} ReportsDoNotMove(rows: seq<Row>, calls: seq<SyncCall>, xs: seq<Execution>, tenant: string, provider: string)
    requires KeysUnique(rows) && forall x, c :: x in xs && c in calls ==> x.startedAt < c.now
    ensures VerifyAttribution(SyncAll(rows, calls), xs, tenant, provider) == VerifyAttribution(rows, xs, tenant, provider)
    decreases |xs|
  {
    if xs != [] {
      var x := xs[0];
      assert x in xs;
      ReportsDoNotMove(rows, calls, xs[1..], tenant, provider);
      if x.email.Some? { HistoryIsImmutable(rows, calls, Key(x.tenant, x.provider, x.email.value), x.startedAt); }
    }
  }

  // ---------- The sync is correct exactly for consistent directories ----------

  function CurrentUser(rows: seq<Row>, k: Key): Option<string> { UserOf(Latest(rows, k, Active())) }

  predicate HasRowFrom(rows: seq<Row>, k: Key, now: Time) {
    exists r :: r in rows && r.key == k && r.validFrom == now
  }

  /** The user `u` ends up with: every entry is compared with the mapping loaded before the loop. */
  function Effect(active: map<string, string>, entries: seq<DirectoryEntry>, u: string, current: Option<string>): Option<string>
    decreases |entries|
  {
    if entries == [] then current
    else
      var e := entries[0];
      Effect(active, entries[1..], u,
             if e.providerUser == u && Get(active, u) != Some(e.user) then Some(e.user) else current)
  }

  /** Nothing is active under `k` after closing it. */
  lemma {:induction false} ClosedHasNone(rows: seq<Row>, k: Key, now: Time)
    ensures Latest(Closed(rows, k, now), k, Active()).None?
  {
    LatestIsLatest(Closed(rows, k, now), k, Active());
  }

  lemma {:induction false} OtherKeysStay(rows: seq<Row>, rows': seq<Row>, k: Key, x: Key, now: Time)
    requires Amends(rows, rows', {k}, now) && x != k
    ensures Latest(rows', x, Active()) == Latest(rows, x, Active())
  {
    var earlier, added := rows'[..|rows|], rows'[|rows|..];
    assert earlier + added == rows';
    LatestAppend(earlier, added, x, Active());
    forall i | 0 <= i < |rows|
      ensures Selected(rows[i], x, Active()) == Selected(earlier[i], x, Active())
      ensures Selected(rows[i], x, Active()) ==> MappingOf(rows[i]) == MappingOf(earlier[i])
    {
      assert earlier[i] == rows'[i];
    }
    LatestPointwise(rows, earlier, x, Active(), Active());
    LatestIsLatest(added, x, Active());
  }

  /** A write makes the entry's user the only active mapping of its key. */
  lemma {:induction false} WriteTakesEffect(rows: seq<Row>, k: Key, user: string, current: Option<string>, now: Time)
    requires KeysUnique(rows) && SyncEntry(rows, k, user, current, now).Some? && current != Some(user)
    requires current.None? ==> HasRowFrom(rows, k, now) || Latest(rows, k, Active()).None?
    ensures var rows' := SyncEntry(rows, k, user, current, now).value;
            Latest(rows', k, Active()) == Some(Mapping(now, Some(user))) && HasRowFrom(rows', k, now)
  {
    var base := if current.None? then rows else Closed(rows, k, now);
    var rows' := SyncEntry(rows, k, user, current, now).value;
    assert rows' == base + [NewRow(k, user, now)];
    if current.Some? { ClosedHasNone(rows, k, now); }
    LatestAppend(base, [NewRow(k, user, now)], k, Active());
    assert rows'[|base|] in rows';
  }

  /** Loop invariant: the table says what the entries so far call for, and a key that was written has a
    * row from `now`, so that a second write to it would violate the index. */
  ghost predicate Tracks(rows: seq<Row>, tenant: string, provider: string, active: map<string, string>, cur: string -> Option<string>, now: Time) {
    forall u: string :: TracksAt(rows, Key(tenant, provider, u), Get(active, u), cur(u), now)
  }

  ghost predicate TracksAt(rows: seq<Row>, k: Key, loaded: Option<string>, cur: Option<string>, now: Time) {
    && CurrentUser(rows, k) == cur
    && (cur.None? ==> Latest(rows, k, Active()).None?)
    && (cur != loaded ==> HasRowFrom(rows, k, now))
  }

  lemma {:induction false} RowsFromNowStay(rows: seq<Row>, rows': seq<Row>, keys: set<Key>, k: Key, now: Time)
    requires Amends(rows, rows', keys, now) && HasRowFrom(rows, k, now)
    ensures HasRowFrom(rows', k, now)
  {
    var i :| 0 <= i < |rows| && rows[i].key == k && rows[i].validFrom == now;
    assert rows'[i] in rows';
  }

  lemma {:induction false} EntryTracks(rows: seq<Row>, tenant: string, provider: string, active: map<string, string>, cur: string -> Option<string>,
                    e: DirectoryEntry, now: Time)
    requires KeysUnique(rows) && Tracks(rows, tenant, provider, active, cur, now)
    requires SyncEntry(rows, Key(tenant, provider, e.providerUser), e.user, Get(active, e.providerUser), now).Some?
    ensures var rows' := SyncEntry(rows, Key(tenant, provider, e.providerUser), e.user, Get(active, e.providerUser), now).value;
            var cur' := (u: string) => if u == e.providerUser && Get(active, u) != Some(e.user) then Some(e.user) else cur(u);
            Tracks(rows', tenant, provider, active, cur', now)
  {
    var k, loaded := Key(tenant, provider, e.providerUser), Get(active, e.providerUser);
    var rows' := SyncEntry(rows, k, e.user, loaded, now).value;
    EntryAmends(rows, k, e.user, loaded, now);
    forall u: string
      ensures TracksAt(rows', Key(tenant, provider, u), Get(active, u),
                       if u == e.providerUser && Get(active, u) != Some(e.user) then Some(e.user) else cur(u), now)
    {
      assert TracksAt(rows, Key(tenant, provider, u), Get(active, u), cur(u), now);
      if u != e.providerUser {
        OtherKeysStay(rows, rows', k, Key(tenant, provider, u), now);
        if cur(u) != Get(active, u) { RowsFromNowStay(rows, rows', {k}, Key(tenant, provider, u), now); }
      } else if loaded != Some(e.user) {
        WriteTakesEffect(rows, k, e.user, loaded, now);
      }
    }
  }

  lemma {:induction false} LoopTakesEffect(rows: seq<Row>, tenant: string, provider: string, active: map<string, string>,
                                           cur: string -> Option<string>, entries: seq<DirectoryEntry>, now: Time, report: Report, u: string)
    requires KeysUnique(rows) && Tracks(rows, tenant, provider, active, cur, now)
    requires SyncLoop(rows, tenant, provider, active, entries, now, report).Some?
    ensures var rows' := SyncLoop(rows, tenant, provider, active, entries, now, report).value.0;
            && CurrentUser(rows', Key(tenant, provider, u)) == Effect(active, entries, u, cur(u))
            && (CurrentUser(rows', Key(tenant, provider, u)).None? ==> Latest(rows', Key(tenant, provider, u), Active()).None?)
    decreases |entries|
  {
    hide TracksAt, Latest;
    assert TracksAt(rows, Key(tenant, provider, u), Get(active, u), cur(u), now);
    if entries == [] {
      TracksMeans(rows, Key(tenant, provider, u), Get(active, u), cur(u), now);
    } else {
      var e := entries[0];
      var current := Get(active, e.providerUser);
      var k := Key(tenant, provider, e.providerUser);
      EntryTracks(rows, tenant, provider, active, cur, e, now);
      EntryAmends(rows, k, e.user, current, now);
      var cur' := (x: string) => if x == e.providerUser && Get(active, x) != Some(e.user) then Some(e.user) else cur(x);
      LoopTakesEffect(SyncEntry(rows, k, e.user, current, now).value, tenant, provider, active, cur', entries[1..], now,
                      Tally(report, e.user, current), u);
    }
  }

  lemma {:induction false} TracksMeans(rows: seq<Row>, k: Key, loaded: Option<string>, cur: Option<string>, now: Time)
    requires TracksAt(rows, k, loaded, cur, now)
    ensures CurrentUser(rows, k) == cur && (cur.None? ==> Latest(rows, k, Active()).None?)
  {}

  lemma {:induction false} SyncTakesEffect(rows: seq<Row>, tenant: string, provider: string, entries: seq<DirectoryEntry>, now: Time, u: string)
    requires KeysUnique(rows) && Sync(rows, tenant, provider, entries, now).Some?
    ensures var active := Load(rows, tenant, provider, Active()).value;
            var rows' := Sync(rows, tenant, provider, entries, now).value.0;
            && CurrentUser(rows', Key(tenant, provider, u)) == Effect(active, entries, u, Get(active, u))
            && (CurrentUser(rows', Key(tenant, provider, u)).None? ==> Latest(rows', Key(tenant, provider, u), Active()).None?)
  {
    var active := Load(rows, tenant, provider, Active()).value;
    forall x: string ensures TracksAt(rows, Key(tenant, provider, x), Get(active, x), Get(active, x), now) {
      LoadIsLatest(rows, tenant, provider, Active(), x);
    }
    LoopTakesEffect(rows, tenant, provider, active, x => Get(active, x), entries, now, Report(0, 0, 0), u);
  }

  /** No provider user is listed for two different people. */
  predicate Consistent(entries: seq<DirectoryEntry>) {
    forall a, b :: a in entries && b in entries && a.providerUser == b.providerUser ==> a.user == b.user
  }

  lemma {:induction false} EffectOfConsistent(active: map<string, string>, entries: seq<DirectoryEntry>, e: DirectoryEntry, current: Option<string>)
    requires forall x :: x in entries && x.providerUser == e.providerUser ==> x.user == e.user
    requires e in entries || current == Some(e.user)
    requires Get(active, e.providerUser) == Some(e.user) ==> current == Some(e.user)
    ensures Effect(active, entries, e.providerUser, current) == Some(e.user)
    decreases |entries|
  {
    if entries != [] {
      var x := entries[0];
      assert x in entries && entries == [x] + entries[1..];
      var next := if x.providerUser == e.providerUser && Get(active, e.providerUser) != Some(x.user) then Some(x.user) else current;
      EffectOfConsistent(active, entries[1..], e, next);
    }
  }

  ghost predicate MapsEveryEntry(rows: seq<Row>, tenant: string, provider: string, entries: seq<DirectoryEntry>) {
    forall e :: e in entries ==> CurrentUser(rows, Key(tenant, provider, e.providerUser)) == Some(e.user)
  }

  /** A sync that commits maps every entry, if and only if the directory does not contradict itself. */
  lemma {:induction false} CommittedSyncMapsIff(rows: seq<Row>, tenant: string, provider: string, entries: seq<DirectoryEntry>, now: Time)
    requires KeysUnique(rows) && Sync(rows, tenant, provider, entries, now).Some?
    ensures MapsEveryEntry(Sync(rows, tenant, provider, entries, now).value.0, tenant, provider, entries) <==> Consistent(entries)
  {
    var active := Load(rows, tenant, provider, Active()).value;
    if Consistent(entries) {
      forall e | e in entries
        ensures CurrentUser(Sync(rows, tenant, provider, entries, now).value.0, Key(tenant, provider, e.providerUser)) == Some(e.user)
      {
        SyncTakesEffect(rows, tenant, provider, entries, now, e.providerUser);
        EffectOfConsistent(active, entries, e, Get(active, e.providerUser));
      }
    }
  }

  lemma {:induction false} LoopOfSatisfied(rows: seq<Row>, tenant: string, provider: string, active: map<string, string>,
                                           entries: seq<DirectoryEntry>, now: Time, report: Report)
    requires forall e :: e in entries ==> Get(active, e.providerUser) == Some(e.user)
    ensures SyncLoop(rows, tenant, provider, active, entries, now, report) == Some((rows, report.(kept := report.kept + |entries|)))
    decreases |entries|
  {
    if entries != [] {
      assert entries[0] in entries;
      LoopOfSatisfied(rows, tenant, provider, active, entries[1..], now, report.(kept := report.kept + 1));
    }
  }

  lemma {:induction false} SyncKeepsUsers(rows: seq<Row>, tenant: string, provider: string, entries: seq<DirectoryEntry>, now: Time)
    requires KeysUnique(rows) && Sync(rows, tenant, provider, entries, now).Some?
    ensures Load(Sync(rows, tenant, provider, entries, now).value.0, tenant, provider, Active()).Some?
  {
    LoopKeepsUsers(rows, tenant, provider, Load(rows, tenant, provider, Active()).value, entries, now, Report(0, 0, 0));
    LoadFailsOnNull(rows, tenant, provider, Active());
    LoadFailsOnNull(Sync(rows, tenant, provider, entries, now).value.0, tenant, provider, Active());
  }

  lemma {:induction false} LoopKeepsUsers(rows: seq<Row>, tenant: string, provider: string, active: map<string, string>,
                                          entries: seq<DirectoryEntry>, now: Time, report: Report)
    requires SyncLoop(rows, tenant, provider, active, entries, now, report).Some?
    ensures forall r :: r in SyncLoop(rows, tenant, provider, active, entries, now, report).value.0 && r.validTo.None? && r.user.None? ==> r in rows
    decreases |entries|
  {
    if entries != [] {
      var e := entries[0];
      var current := Get(active, e.providerUser);
      var k := Key(tenant, provider, e.providerUser);
      var rows1 := SyncEntry(rows, k, e.user, current, now).value;
      forall r | r in rows1 && r.validTo.None? && r.user.None? ensures r in rows {
        var i :| 0 <= i < |rows1| && rows1[i] == r;
        if i < |rows| { assert rows[i] in rows; }
      }
      LoopKeepsUsers(rows1, tenant, provider, active, entries[1..], now, Tally(report, e.user, current));
    }
  }

  /** Only entries that are mapped already are kept. */
  lemma {:induction false} LoopKeepsSatisfied(rows: seq<Row>, tenant: string, provider: string, active: map<string, string>,
                                              entries: seq<DirectoryEntry>, now: Time, report: Report)
    requires SyncLoop(rows, tenant, provider, active, entries, now, report).Some?
    ensures var kept := SyncLoop(rows, tenant, provider, active, entries, now, report).value.1.kept;
            && kept <= report.kept + |entries|
            && (kept == report.kept + |entries| ==> forall e :: e in entries ==> Get(active, e.providerUser) == Some(e.user))
    decreases |entries|
  {
    hide SyncEntry;
    if entries != [] {
      var e := entries[0];
      var current := Get(active, e.providerUser);
      var rows1 := SyncEntry(rows, Key(tenant, provider, e.providerUser), e.user, current, now).value;
      LoopKeepsSatisfied(rows1, tenant, provider, active, entries[1..], now, Tally(report, e.user, current));
      assert entries == [e] + entries[1..];
    }
  }

  /** Idempotence: after a sync that commits, running the same directory again, at any time, keeps every
    * entry and changes no row, if and only if the directory does not contradict itself. */
  lemma {:induction false} SyncIsIdempotentIff(rows: seq<Row>, tenant: string, provider: string, entries: seq<DirectoryEntry>, now: Time, later: Time)
    requires KeysUnique(rows) && Sync(rows, tenant, provider, entries, now).Some?
    ensures var rows' := Sync(rows, tenant, provider, entries, now).value.0;
            Sync(rows', tenant, provider, entries, later) == Some((rows', Report(0, 0, |entries|))) <==> Consistent(entries)
  {
    hide SyncLoop;
    var rows' := Sync(rows, tenant, provider, entries, now).value.0;
    CommittedSyncMapsIff(rows, tenant, provider, entries, now);
    SyncKeepsUsers(rows, tenant, provider, entries, now);
    var active := Load(rows', tenant, provider, Active()).value;
    if Consistent(entries) {
      forall e | e in entries ensures Get(active, e.providerUser) == Some(e.user) {
        LoadIsLatest(rows', tenant, provider, Active(), e.providerUser);
      }
      LoopOfSatisfied(rows', tenant, provider, active, entries, later, Report(0, 0, 0));
    }
    if Sync(rows', tenant, provider, entries, later) == Some((rows', Report(0, 0, |entries|))) {
      LoopKeepsSatisfied(rows', tenant, provider, active, entries, later, Report(0, 0, 0));
    }
  }

  /** An entry calls for a write when it differs from the mapping loaded before the loop. */
  predicate Differs(loaded: Option<string>, e: DirectoryEntry) { loaded != Some(e.user) }

  /** No provider user is written twice, and none that is written already has a row from this instant. */
  ghost predicate Writable(rows: seq<Row>, tenant: string, provider: string, loaded: string -> Option<string>,
                           entries: seq<DirectoryEntry>, now: Time)
  {
    && (forall e | e in entries && Differs(loaded(e.providerUser), e) :: !HasRowFrom(rows, Key(tenant, provider, e.providerUser), now))
    && forall i, j | 0 <= i < j < |entries| && Differs(loaded(entries[i].providerUser), entries[i])
                  && Differs(loaded(entries[j].providerUser), entries[j]) :: entries[i].providerUser != entries[j].providerUser
  }

  lemma {:induction false} WritableStep(rows: seq<Row>, rows1: seq<Row>, tenant: string, provider: string, loaded: string -> Option<string>,
                                        entries: seq<DirectoryEntry>, now: Time)
    requires entries != []
    requires forall x: Key :: HasRowFrom(rows1, x, now) <==>
               HasRowFrom(rows, x, now) || (x == Key(tenant, provider, entries[0].providerUser) && Differs(loaded(entries[0].providerUser), entries[0]))
    requires Differs(loaded(entries[0].providerUser), entries[0]) ==> !HasRowFrom(rows, Key(tenant, provider, entries[0].providerUser), now)
    ensures Writable(rows, tenant, provider, loaded, entries, now) <==> Writable(rows1, tenant, provider, loaded, entries[1..], now)
  {
    hide HasRowFrom, Differs;
    var first, rest := entries[0], entries[1..];
    assert entries == [first] + rest;
    if Writable(rows, tenant, provider, loaded, entries, now) {
      forall e | e in rest && Differs(loaded(e.providerUser), e) ensures !HasRowFrom(rows1, Key(tenant, provider, e.providerUser), now) {
        var j :| 0 <= j < |rest| && rest[j] == e;
        assert entries[j + 1] == e && e in entries;
      }
      forall i, j | 0 <= i < j < |rest| && Differs(loaded(rest[i].providerUser), rest[i]) && Differs(loaded(rest[j].providerUser), rest[j])
        ensures rest[i].providerUser != rest[j].providerUser
      {
        assert entries[i + 1] == rest[i] && entries[j + 1] == rest[j];
      }
    }
    if Writable(rows1, tenant, provider, loaded, rest, now) {
      forall i, j | 0 <= i < j < |entries| && Differs(loaded(entries[i].providerUser), entries[i])
                 && Differs(loaded(entries[j].providerUser), entries[j])
        ensures entries[i].providerUser != entries[j].providerUser
      {
        assert entries[j] == rest[j - 1];
        if i > 0 {
          assert entries[i] == rest[i - 1];
        } else {
          assert entries[j] in rest;
        }
      }
    }
  }

  lemma {:induction false} LoopCommitsIff(rows: seq<Row>, tenant: string, provider: string, active: map<string, string>,
                                          entries: seq<DirectoryEntry>, now: Time, report: Report)
    ensures SyncLoop(rows, tenant, provider, active, entries, now, report).Some? <==>
            Writable(rows, tenant, provider, u => Get(active, u), entries, now)
    decreases |entries|
  {
    hide SyncEntry, HasRowFrom;
    if entries != [] {
      var e := entries[0];
      assert e in entries;
      var k := Key(tenant, provider, e.providerUser);
      var current := Get(active, e.providerUser);
      EntryCommitsIff(rows, k, e.user, current, now);
      var written := SyncEntry(rows, k, e.user, current, now);
      if written.Some? {
        WritableStep(rows, written.value, tenant, provider, u => Get(active, u), entries, now);
        LoopCommitsIff(written.value, tenant, provider, active, entries[1..], now, Tally(report, e.user, current));
      }
    }
  }

  /** One entry: kept, or written unless its principal has a row from this instant. */
  lemma {:induction false} EntryCommitsIff(rows: seq<Row>, k: Key, user: string, current: Option<string>, now: Time)
    ensures var written := SyncEntry(rows, k, user, current, now);
            && (written.None? <==> current != Some(user) && HasRowFrom(rows, k, now))
            && (written.Some? ==>
                  forall x: Key :: HasRowFrom(written.value, x, now) <==> HasRowFrom(rows, x, now) || (x == k && current != Some(user)))
  {
    ClosedHasSame(rows, k, now);
    var written := SyncEntry(rows, k, user, current, now);
    if written.Some? && current != Some(user) {
      var base := if current.None? then rows else Closed(rows, k, now);
      assert written.value == base + [NewRow(k, user, now)];
      assert NewRow(k, user, now) in written.value;
    }
  }

  lemma {:induction false} ClosedHasSame(rows: seq<Row>, k: Key, now: Time)
    ensures forall x: Key :: HasRowFrom(Closed(rows, k, now), x, now) <==> HasRowFrom(rows, x, now)
  {
    var closed := Closed(rows, k, now);
    forall x: Key ensures HasRowFrom(closed, x, now) <==> HasRowFrom(rows, x, now) {
      if r :| r in rows && r.key == x && r.validFrom == now {
        var i :| 0 <= i < |rows| && rows[i] == r;
        assert closed[i] in closed;
      }
      if r :| r in closed && r.key == x && r.validFrom == now {
        var i :| 0 <= i < |closed| && closed[i] == r;
        assert rows[i] in rows;
      }
    }
  }

  /** No active row of the tenant and provider is without a user. */
  predicate UsersKnown(rows: seq<Row>, tenant: string, provider: string) {
    forall r :: r in rows && Scoped(tenant, provider, Active())(r) ==> r.user.Some?
  }

  /** Who a provider user is mapped to before the sync. */
  function Loaded(rows: seq<Row>, tenant: string, provider: string): string -> Option<string> {
    (u: string) => CurrentUser(rows, Key(tenant, provider, u))
  }

  /** The sync commits if and only if it can read the active mappings and writes each principal at most
    * once, none of them one that already has a row from this instant. */
  lemma {:induction false} SyncCommitsIff(rows: seq<Row>, tenant: string, provider: string, entries: seq<DirectoryEntry>, now: Time)
    ensures Sync(rows, tenant, provider, entries, now).Some? <==>
            UsersKnown(rows, tenant, provider) && Writable(rows, tenant, provider, Loaded(rows, tenant, provider), entries, now)
  {
    hide SyncLoop, Latest, HasRowFrom;
    LoadFailsOnNull(rows, tenant, provider, Active());
    if UsersKnown(rows, tenant, provider) {
      var active := Load(rows, tenant, provider, Active()).value;
      LoopCommitsIff(rows, tenant, provider, active, entries, now, Report(0, 0, 0));
      forall u: string ensures Get(active, u) == Loaded(rows, tenant, provider)(u) {
        LoadIsLatest(rows, tenant, provider, Active(), u);
      }
      SameLoaded(rows, tenant, provider, u => Get(active, u), Loaded(rows, tenant, provider), entries, now);
    }
  }

  lemma {:induction false} SameLoaded(rows: seq<Row>, tenant: string, provider: string, a: string -> Option<string>, b: string -> Option<string>,
                                      entries: seq<DirectoryEntry>, now: Time)
    requires forall u: string :: a(u) == b(u)
    ensures Writable(rows, tenant, provider, a, entries, now) <==> Writable(rows, tenant, provider, b, entries, now)
  {
    hide HasRowFrom;
  }

  /** For every table, directory and instant: the sync commits and every entry's latest active mapping is
    * then the entry's user, if and only if the active mappings can be read, the directory does not
    * contradict itself, and no principal is written twice or has a row from this very instant. */
  lemma {:induction false} SyncIsCorrectIff(rows: seq<Row>, tenant: string, provider: string, entries: seq<DirectoryEntry>, now: Time)
    requires KeysUnique(rows)
    ensures var r := Sync(rows, tenant, provider, entries, now);
            (r.Some? && MapsEveryEntry(r.value.0, tenant, provider, entries)) <==>
            && UsersKnown(rows, tenant, provider) && Consistent(entries)
            && Writable(rows, tenant, provider, Loaded(rows, tenant, provider), entries, now)
  {
    SyncCommitsIff(rows, tenant, provider, entries, now);
    if Sync(rows, tenant, provider, entries, now).Some? {
      CommittedSyncMapsIff(rows, tenant, provider, entries, now);
    }
  }

  /** A directory that repeats an entry that is not yet mapped contradicts nothing, and aborts: the second
    * insert violates the unique index, so nobody is mapped, on this run or on any later one. */
  lemma {:induction false} RepeatedEntryAborts(rows: seq<Row>, k: Key, user: string, now: Time)
    requires CurrentUser(rows, k) != Some(user)
    ensures var e := DirectoryEntry(k.providerUser, user);
            Consistent([e, e]) && Sync(rows, k.tenant, k.provider, [e, e], now).None?
  {
    hide Sync, Latest, HasRowFrom;
    var e := DirectoryEntry(k.providerUser, user);
    var entries := [e, e];
    SyncCommitsIff(rows, k.tenant, k.provider, entries, now);
    assert Key(k.tenant, k.provider, e.providerUser) == k;
    assert Differs(Loaded(rows, k.tenant, k.provider)(entries[0].providerUser), entries[0]);
    assert entries[0].providerUser == entries[1].providerUser && entries[1] == entries[0];
  }

  lemma {:induction false} EntryWrites(rows: seq<Row>, k: Key, user: string, current: Option<string>, now: Time)
    requires !HasRowFrom(rows, k, now)
    ensures SyncEntry(rows, k, user, current, now).Some?
    ensures forall x: Key :: x != k && !HasRowFrom(rows, x, now) ==> !HasRowFrom(SyncEntry(rows, k, user, current, now).value, x, now)
  {
    forall r | r in Closed(rows, k, now) ensures exists s :: s in rows && s.key == r.key && s.validFrom == r.validFrom {
      var i :| 0 <= i < |rows| && Closed(rows, k, now)[i] == r;
      assert rows[i] in rows;
    }
  }

  /** A directory that lists one provider user for two people: whichever of the two is mapped before a
    * sync, the other one is mapped after it, run after run. */
  lemma {:induction false} ContradictoryDirectoryFlips(rows: seq<Row>, k: Key, a: string, b: string, now: Time)
    requires KeysUnique(rows) && a != b && (CurrentUser(rows, k) == Some(a) || CurrentUser(rows, k) == Some(b))
    requires forall r :: r in rows && Scoped(k.tenant, k.provider, Active())(r) ==> r.user.Some?
    requires !HasRowFrom(rows, k, now)
    ensures var r := Sync(rows, k.tenant, k.provider, [DirectoryEntry(k.providerUser, a), DirectoryEntry(k.providerUser, b)], now);
            r.Some? && CurrentUser(r.value.0, k) == Some(if CurrentUser(rows, k) == Some(a) then b else a)
  {
    var first, second := DirectoryEntry(k.providerUser, a), DirectoryEntry(k.providerUser, b);
    var entries := [first, second];
    LoadFailsOnNull(rows, k.tenant, k.provider, Active());
    var active := Load(rows, k.tenant, k.provider, Active()).value;
    LoadIsLatest(rows, k.tenant, k.provider, Active(), k.providerUser);
    var current := Get(active, k.providerUser);
    EntryWrites(rows, k, if current == Some(a) then b else a, current, now);
    assert entries[1..] == [second] && [second][1..] == [];
    TwoEntries(rows, k, active, first, second, now);
    SyncTakesEffect(rows, k.tenant, k.provider, entries, now, k.providerUser);
    EffectOfTwo(active, first, second, current);
  }

  lemma {:induction false} TwoEntries(rows: seq<Row>, k: Key, active: map<string, string>, first: DirectoryEntry, second: DirectoryEntry, now: Time)
    requires first.providerUser == second.providerUser == k.providerUser
    requires Get(active, k.providerUser) == Some(first.user) || Get(active, k.providerUser) == Some(second.user)
    requires first.user != second.user && !HasRowFrom(rows, k, now)
    ensures SyncLoop(rows, k.tenant, k.provider, active, [first, second], now, Report(0, 0, 0)).Some?
  {
    hide SyncEntry;
    var current := Get(active, k.providerUser);
    EntryWrites(rows, k, first.user, current, now);
    EntryWrites(rows, k, second.user, current, now);
    var entries := [first, second];
    assert entries[1..] == [second] && [second][1..] == [];
    var rows1 := SyncEntry(rows, k, first.user, current, now).value;
    KeptEntry(rows, k, first.user, now);
    KeptEntry(rows1, k, second.user, now);
    var report1 := Tally(Report(0, 0, 0), first.user, current);
    assert SyncLoop(rows1, k.tenant, k.provider, active, [second], now, report1).Some?;
  }

  lemma {:induction false} KeptEntry(rows: seq<Row>, k: Key, user: string, now: Time)
    ensures SyncEntry(rows, k, user, Some(user), now) == Some(rows)
  {}

  lemma {:induction false} EffectOfTwo(active: map<string, string>, first: DirectoryEntry, second: DirectoryEntry, current: Option<string>)
    requires first.providerUser == second.providerUser && first.user != second.user
    requires current == Get(active, first.providerUser) && (current == Some(first.user) || current == Some(second.user))
    ensures Effect(active, [first, second], first.providerUser, current)
         == Some(if current == Some(first.user) then second.user else first.user)
  {
    assert [first, second][1..] == [second] && [second][1..] == [];
    var next := if current != Some(first.user) then Some(first.user) else current;
    assert Effect(active, [second], first.providerUser, next) == if current != Some(second.user) then Some(second.user) else next;
  }

  // ---------- The live rule and the historical rule ----------

  /** `check_email_mismatches`: `None` for the map is the failed query, which flags nothing. */
  function LiveLookup(rows: seq<Row>, tenant: string, provider: string, emails: set<string>, now: Time): Option<map<string, string>> {
    Load(rows, tenant, provider, (r: Row) => r.key.providerUser in emails && OpenAt(r, now))
  }

  function LiveFlag(mapped: map<string, string>, token: Option<string>, email: Option<string>): bool {
    token.Some? && email.Some? && email.value in mapped && mapped[email.value] != token.value
  }

  /** The live rule: the latest mapping still open names somebody other than the token's user. */
  predicate Flagged(rows: seq<Row>, k: Key, token: Option<string>, now: Time) {
    var live := UserOf(Latest(rows, k, OpenAfter(now)));
    token.Some? && live.Some? && live != token
  }

  /** The latest mapping of the key that is open after now names someone else than the token. */
  ghost predicate LiveNamesAnother(rows: seq<Row>, k: Key, token: Option<string>, now: Time, r: Row) {
    && r in rows && r.key == k && (r.validTo.Some? ==> now < r.validTo.value)
    && token.Some? && r.user.Some? && r.user != token
    && forall other | other in rows && other.key == k && (other.validTo.Some? ==> now < other.validTo.value) :: other.validFrom <= r.validFrom
  }

  /** The live rule, told by the rows: without a token user nothing is flagged. */
  lemma {:induction false} FlaggedIff(rows: seq<Row>, k: Key, token: Option<string>, now: Time)
    requires KeysUnique(rows)
    ensures Flagged(rows, k, token, now) <==> exists r :: LiveNamesAnother(rows, k, token, now, r)
  {
    var pick, latest := OpenAfter(now), Latest(rows, k, OpenAfter(now));
    LatestIsLatest(rows, k, pick);
    forall r | r in rows ensures exists j :: 0 <= j < |rows| && rows[j] == r {}
    if latest.Some? {
      var i :| 0 <= i < |rows| && Selected(rows[i], k, pick) && MappingOf(rows[i]) == latest.value;
      if Flagged(rows, k, token, now) {
        forall other | other in rows && other.key == k && (other.validTo.Some? ==> now < other.validTo.value)
          ensures other.validFrom <= rows[i].validFrom
        {
          var j :| 0 <= j < |rows| && rows[j] == other;
          assert Selected(rows[j], k, pick);
        }
        assert LiveNamesAnother(rows, k, token, now, rows[i]);
      }
      if r :| LiveNamesAnother(rows, k, token, now, r) {
        var j :| 0 <= j < |rows| && rows[j] == r;
        assert Selected(rows[j], k, pick) && rows[i] in rows;
      }
    } else {
      forall r | r in rows && r.key == k ensures !pick(r) {
        var j :| 0 <= j < |rows| && rows[j] == r;
        assert !Selected(rows[j], k, pick);
      }
    }
  }

  datatype LiveCheck = LiveCheck(flags: seq<bool>, queryFailed: bool)

  method CheckEmailMismatches(rows: seq<Row>, tenant: string, provider: string, token: Option<string>,
                              emails: seq<Option<string>>, now: Time, dbFails: bool) returns (r: LiveCheck)
    ensures |r.flags| == |emails|
    ensures r.queryFailed <==>
              && (exists e :: e in emails && e.Some?)
              && (dbFails || exists x :: x in rows && Scoped(tenant, provider, OpenAfter(now))(x) && Some(x.key.providerUser) in emails && x.user.None?)
    ensures forall i :: 0 <= i < |emails| ==>
              (r.flags[i] <==> !r.queryFailed && emails[i].Some? && Flagged(rows, Key(tenant, provider, emails[i].value), token, now))
  {
    var unique := set e | e in emails && e.Some? :: e.value;
    assert forall s :: s in unique <==> Some(s) in emails;
    var mapped, failed := map[], false;
    if unique != {} {
      var loaded := LiveLookup(rows, tenant, provider, unique, now);
      LoadFailsOnNull(rows, tenant, provider, (r: Row) => r.key.providerUser in unique && OpenAt(r, now));
      if dbFails || loaded.None? { failed := true; } else { mapped := loaded.value; }
    }
    assert unique == {} <==> !exists e :: e in emails && e.Some? by {
      if e :| e in emails && e.Some? { assert e.value in unique; }
    }
    var flags: seq<bool> := [];
    for i := 0 to |emails|
      invariant |flags| == i
      invariant forall j :: 0 <= j < i ==> flags[j] == LiveFlag(mapped, token, emails[j])
    {
      flags := flags + [LiveFlag(mapped, token, emails[i])];
    }
    r := LiveCheck(flags, failed);
    if !failed {
      forall i | 0 <= i < |emails| && emails[i].Some?
        ensures Get(mapped, emails[i].value) == UserOf(Latest(rows, Key(tenant, provider, emails[i].value), OpenAfter(now)))
      {
        var email := emails[i].value;
        assert email in unique;
        LiveLookupIsLatest(rows, tenant, provider, unique, now, email);
      }
    }
  }

  lemma {:induction false} LiveLookupIsLatest(rows: seq<Row>, tenant: string, provider: string, emails: set<string>, now: Time, email: string)
    requires email in emails && LiveLookup(rows, tenant, provider, emails, now).Some?
    ensures Get(LiveLookup(rows, tenant, provider, emails, now).value, email)
         == UserOf(Latest(rows, Key(tenant, provider, email), OpenAfter(now)))
  {
    var pick := (r: Row) => r.key.providerUser in emails && OpenAt(r, now);
    LoadIsLatest(rows, tenant, provider, pick, email);
    var k := Key(tenant, provider, email);
    LatestPointwise(rows, rows, k, pick, OpenAfter(now));
  }

  /** Rows that are not valid yet. */
  function Future(now: Time): Row -> bool { (r: Row) => r.validFrom > now && OpenAt(r, now) }

  /** The live lookup prefers a future-dated row; apart from those it is the historical one. */
  lemma {:induction false} LiveSplits(rows: seq<Row>, k: Key, now: Time)
    ensures Latest(rows, k, OpenAfter(now)) == Better(AsOf(rows, k, now), Latest(rows, k, Future(now)))
    ensures AsOf(rows, k, now).Some? ==> AsOf(rows, k, now).value.from <= now
    ensures Latest(rows, k, Future(now)).Some? ==> Latest(rows, k, Future(now)).value.from > now
  {
    if rows != [] { LiveSplits(rows[1..], k, now); }
  }

  /** For every email and every token user the live rule flags what the historical rule flags at this
    * instant, if and only if no future-dated row is there or the latest one names the same user. */
  lemma {:induction false} LiveAgreesWithHistoryIff(rows: seq<Row>, tenant: string, provider: string, email: string, now: Time)
    requires forall r :: r in rows && Scoped(tenant, provider, OpenAfter(now))(r) && r.key.providerUser == email ==> r.user.Some?
    ensures var k := Key(tenant, provider, email);
            var future := Latest(rows, k, Future(now));
            (forall token: string :: Flagged(rows, k, Some(token), now) == Mismatched(rows, Execution(tenant, provider, Some(token), Some(email), now)))
            <==> future.None? || UserOf(future) == UserOf(AsOf(rows, k, now))
  {
    var k := Key(tenant, provider, email);
    LiveSplits(rows, k, now);
    var live, past, future := UserOf(Latest(rows, k, OpenAfter(now))), UserOf(AsOf(rows, k, now)), Latest(rows, k, Future(now));
    LatestIsLatest(rows, k, Future(now));
    if future.Some? {
      var i :| 0 <= i < |rows| && Selected(rows[i], k, Future(now)) && MappingOf(rows[i]) == future.value;
      assert rows[i] in rows;
      assert live == UserOf(future) && live.Some?;
      if live != past {
        var token := if past.Some? then past.value else live.value + "?";
        assert Mismatched(rows, Execution(tenant, provider, Some(token), Some(email), now)) == (past.Some? && past.value != token);
        assert live.value != token;
      }
    }
    forall token: string
      ensures Mismatched(rows, Execution(tenant, provider, Some(token), Some(email), now)) == (past.Some? && past.value != token)
    {}
  }

  /** The failing case: a mapping that ends at the next instant, and the one that begins there. The live
    * rule flags the user who is mapped now; the historical rule does not. */
  lemma {:induction false} AFutureRowIsFlagged(tenant: string, provider: string, email: string, now: Time)
    ensures var k := Key(tenant, provider, email);
            var rows := [Row(k, Some("ann"), now, Some(now + 1)), Row(k, Some("bob"), now + 1, None)];
            && KeysUnique(rows)
            && Flagged(rows, k, Some("ann"), now)
            && !Mismatched(rows, Execution(tenant, provider, Some("ann"), Some(email), now))
  {
    var k := Key(tenant, provider, email);
    var ann, bob := Row(k, Some("ann"), now, Some(now + 1)), Row(k, Some("bob"), now + 1, None);
    assert [ann, bob][1..] == [bob] && [bob][1..] == [];
    assert Latest([bob], k, OpenAfter(now)) == Some(MappingOf(bob)) && Latest([bob], k, ValidAt(now)) == None;
    assert "ann"[0] != "bob"[0];
  }
}
