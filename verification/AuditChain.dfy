/** The hash-chained audit log (`repositories/audit.py`) and the verifier that
    recomputes it (`audit/verifier.py`).

    SHA-256 and the canonical JSON text of a row are parameters. Nothing is
    assumed of SHA-256 beyond its digest length, except where a theorem says
    that no two inputs actually hashed in the given chains collide. */
module AuditChain {
  import opened Common

  type Digest = string

  // The columns covered by the hash; the payload is the text of its JSON.
  datatype Fields = Fields(tenantId: string, actorId: string, action: string, resourceType: string,
                           resourceId: string, outcome: string, payload: Option<string>)

  /** Rows from before the chain existed have no hash. */
  datatype Row = Row(auditId: string, fields: Fields, ipAddress: string, recordedAt: int, seqNo: int,
                     prevHash: Option<Digest>, hash: Option<Digest>)

  datatype Hasher = Hasher(sha: string -> Digest, canon: Fields -> string) {
    // compute_audit_hash
    function Compute(prevHash: Digest, f: Fields): Digest {
      sha(prevHash + canon(f))
    }

    ghost predicate WellFormed() {
      && (forall x :: |sha(x)| == 64)
      && (forall f, g :: canon(f) == canon(g) ==> f == g)
    }
  }

  const GENESIS: Digest := "0000000000000000000000000000000000000000000000000000000000000000"

  // ------------------------------------------------------------------
  // Chains and what it means for one to verify
  // ------------------------------------------------------------------

  // The hash the verifier holds when it reaches row n.
  function HashBefore(rows: seq<Row>, n: nat): Option<Digest>
    requires n <= |rows|
  {
    if n == 0 then Some(GENESIS) else rows[n - 1].hash
  }

  // Row n links to the row before it and its stored hash recomputes.
  predicate LinkOk(h: Hasher, rows: seq<Row>, n: nat)
    requires n < |rows|
  {
    && HashBefore(rows, n).Some?
    && rows[n].prevHash == HashBefore(rows, n)
    && rows[n].hash == Some(h.Compute(HashBefore(rows, n).value, rows[n].fields))
  }

  predicate ChainOk(h: Hasher, rows: seq<Row>) {
    forall n :: 0 <= n < |rows| ==> LinkOk(h, rows, n)
  }

  datatype VerificationResult =
    VerificationResult(valid: bool, verifiedCount: nat, brokenAt: Option<(int, string)>)

  /** The answer to these rows: yes exactly to a valid chain, and all rows
      counted; otherwise the longest valid prefix and the row after it. */
  ghost predicate Answers(h: Hasher, rows: seq<Row>, r: VerificationResult) {
    && (r.valid <==> ChainOk(h, rows))
    && r.verifiedCount <= |rows| && ChainOk(h, rows[..r.verifiedCount])
    && (r.valid ==> r.verifiedCount == |rows| && r.brokenAt == None)
    && (!r.valid ==>
          && r.verifiedCount < |rows|
          && (forall m :: r.verifiedCount < m <= |rows| ==> !ChainOk(h, rows[..m]))
          && r.brokenAt == Some((rows[r.verifiedCount].seqNo, rows[r.verifiedCount].auditId)))
  }

  /** Rows have one answer only. */
  lemma OneAnswer(h: Hasher, rows: seq<Row>, a: VerificationResult, b: VerificationResult)
    requires Answers(h, rows, a) && Answers(h, rows, b)
    ensures a == b
  {
  }

  /** The verifier's walk. It accepts exactly the valid chains; on any other
      list it stops at the end of the longest valid prefix and names that row. */
  method WalkChain(h: Hasher, rows: seq<Row>) returns (r: VerificationResult)
    requires forall n :: 0 <= n < |rows| ==> rows[n].hash.Some?
    ensures Answers(h, rows, r)
  {
    var prevHash := GENESIS;
    var verified := 0;
    for i := 0 to |rows|
      invariant verified == i
      invariant Some(prevHash) == HashBefore(rows, i)
      invariant forall n :: 0 <= n < i ==> LinkOk(h, rows, n)
    {
      var expected := h.Compute(prevHash, rows[i].fields);
      if rows[i].prevHash != Some(prevHash) || rows[i].hash != Some(expected) {
        forall m | i < m <= |rows|
          ensures !ChainOk(h, rows[..m])
        {
          LinkOfPrefix(h, rows, m, i);
        }
        PrefixOk(h, rows, i);
        assert !LinkOk(h, rows, i);
        return VerificationResult(false, verified, Some((rows[i].seqNo, rows[i].auditId)));
      }
      prevHash := rows[i].hash.value;
      verified := verified + 1;
    }
    assert rows[..|rows|] == rows;
    return VerificationResult(true, verified, None);
  }

  lemma LinkOfPrefix(h: Hasher, rows: seq<Row>, m: nat, n: nat)
    requires n < m <= |rows|
    ensures LinkOk(h, rows[..m], n) <==> LinkOk(h, rows, n)
  {
  }

  /** Any prefix of a valid chain is valid. */
  lemma PrefixOk(h: Hasher, rows: seq<Row>, m: nat)
    requires m <= |rows| && forall n :: 0 <= n < m ==> LinkOk(h, rows, n)
    ensures ChainOk(h, rows[..m])
  {
    forall n | 0 <= n < m
      ensures LinkOk(h, rows[..m], n)
    {
      LinkOfPrefix(h, rows, m, n);
    }
  }

  // ------------------------------------------------------------------
  // The head commits to the whole history
  // ------------------------------------------------------------------

  // The text hashed for row n of a valid chain.
  function HashInput(h: Hasher, rows: seq<Row>, n: nat): string
    requires n < |rows|
  {
    (if HashBefore(rows, n).Some? then HashBefore(rows, n).value else "") + h.canon(rows[n].fields)
  }

  /** SHA-256 behaves well on the texts hashed in these two chains: no two
      different ones share a digest and none hashes to the genesis value. */
  ghost predicate NoCollision(h: Hasher, a: seq<Row>, b: seq<Row>) {
    && (forall i, j :: 0 <= i < |a| && 0 <= j < |b| ==>
                         h.sha(HashInput(h, a, i)) == h.sha(HashInput(h, b, j)) ==>
                           HashInput(h, a, i) == HashInput(h, b, j))
    && (forall i :: 0 <= i < |a| ==> h.sha(HashInput(h, a, i)) != GENESIS)
    && (forall j :: 0 <= j < |b| ==> h.sha(HashInput(h, b, j)) != GENESIS)
  }

  predicate SameHashedFields(a: seq<Row>, b: seq<Row>) {
    |a| == |b| && forall n :: 0 <= n < |a| ==>
                                a[n].fields == b[n].fields && a[n].prevHash == b[n].prevHash && a[n].hash == b[n].hash
  }

  lemma {:induction false} HeadLengthIs64(h: Hasher, rows: seq<Row>, n: nat)
    requires h.WellFormed() && ChainOk(h, rows) && n <= |rows|
    ensures HashBefore(rows, n).Some? && |HashBefore(rows, n).value| == 64
  {
    if n > 0 {
      assert LinkOk(h, rows, n - 1);
    }
  }

  // Equal last digests mean equal last rows and equal digests before them.
  lemma EqualHeadsEqualRows(h: Hasher, a: seq<Row>, b: seq<Row>)
    requires h.WellFormed() && ChainOk(h, a) && ChainOk(h, b) && NoCollision(h, a, b)
    requires a != [] && b != [] && a[|a| - 1].hash == b[|b| - 1].hash
    ensures a[|a| - 1].fields == b[|b| - 1].fields && a[|a| - 1].prevHash == b[|b| - 1].prevHash
  {
    var m, n := |a| - 1, |b| - 1;
    HeadLengthIs64(h, a, m);
    HeadLengthIs64(h, b, n);
    assert LinkOk(h, a, m) && LinkOk(h, b, n);
    var x, y := HashInput(h, a, m), HashInput(h, b, n);
    assert h.sha(x) == h.sha(y) && x == y;
    assert x[..64] == HashBefore(a, m).value && y[..64] == HashBefore(b, n).value;
    assert x[64..] == h.canon(a[m].fields) && y[64..] == h.canon(b[n].fields);
  }

  lemma NoCollisionInPrefixes(h: Hasher, a: seq<Row>, b: seq<Row>, m: nat, n: nat)
    requires m <= |a| && n <= |b| && NoCollision(h, a, b)
    ensures NoCollision(h, a[..m], b[..n])
  {
    assert forall i :: 0 <= i < m ==> HashInput(h, a[..m], i) == HashInput(h, a, i);
    assert forall j :: 0 <= j < n ==> HashInput(h, b[..n], j) == HashInput(h, b, j);
  }

  lemma GenesisIsNoHead(h: Hasher, a: seq<Row>, b: seq<Row>)
    requires ChainOk(h, a) && ChainOk(h, b) && NoCollision(h, a, b)
    ensures a != [] ==> HashBefore(a, |a|) != Some(GENESIS)
    ensures b != [] ==> HashBefore(b, |b|) != Some(GENESIS)
  {
    if a != [] { assert LinkOk(h, a, |a| - 1) && h.sha(HashInput(h, a, |a| - 1)) != GENESIS; }
    if b != [] { assert LinkOk(h, b, |b| - 1) && h.sha(HashInput(h, b, |b| - 1)) != GENESIS; }
  }

  /** Two chains that both verify and end in the same head hash are equal row
      for row in everything the hash covers, and of the same length. */
  lemma {:induction false} HeadCommitsToHistory(h: Hasher, a: seq<Row>, b: seq<Row>)
    requires h.WellFormed() && ChainOk(h, a) && ChainOk(h, b) && NoCollision(h, a, b)
    requires HashBefore(a, |a|) == HashBefore(b, |b|)
    ensures SameHashedFields(a, b)
    decreases |a|
  {
    if a == [] || b == [] {
      GenesisIsNoHead(h, a, b);
    } else {
      var m, n := |a| - 1, |b| - 1;
      EqualHeadsEqualRows(h, a, b);
      assert LinkOk(h, a, m) && LinkOk(h, b, n);
      PrefixOk(h, a, m);
      PrefixOk(h, b, n);
      NoCollisionInPrefixes(h, a, b, m, n);
      HeadCommitsToHistory(h, a[..m], b[..n]);
      forall k | 0 <= k < m
        ensures a[k].fields == b[k].fields && a[k].prevHash == b[k].prevHash && a[k].hash == b[k].hash
      {
        assert a[k] == a[..m][k] && b[k] == b[..n][k];
      }
    }
  }

  // ------------------------------------------------------------------
  // Appending
  // ------------------------------------------------------------------

  // Rows of one tenant, and those of them that belong to its chain.
  function TenantRows(table: seq<Row>, tenant: string): seq<Row> {
    if table == [] then []
    else
      var rest := TenantRows(table[..|table| - 1], tenant);
      var last := table[|table| - 1];
      if last.fields.tenantId == tenant then rest + [last] else rest
  }

  // iter_chain without bounds
  function IterChain(table: seq<Row>, tenant: string): seq<Row> {
    if table == [] then []
    else
      var rest := IterChain(table[..|table| - 1], tenant);
      var last := table[|table| - 1];
      if last.fields.tenantId == tenant && last.hash.Some? then rest + [last] else rest
  }

  // The hash column of the tenant's latest row, NULL and no row alike giving genesis.
  function LatestHash(table: seq<Row>, tenant: string): Digest {
    var rows := TenantRows(table, tenant);
    if rows != [] && rows[|rows| - 1].hash.Some? then rows[|rows| - 1].hash.value else GENESIS
  }

  /** What the database fills in by itself. */
  datatype Stamp = Stamp(auditId: string, ipAddress: string, recordedAt: int, seqNo: int)

  // The row inserted by an append that has read `prev`.
  function LinkedRow(h: Hasher, prev: Digest, f: Fields, s: Stamp): Row {
    Row(s.auditId, f, s.ipAddress, s.recordedAt, s.seqNo, Some(prev), Some(h.Compute(prev, f)))
  }

  function NewRow(h: Hasher, table: seq<Row>, f: Fields, s: Stamp): Row {
    LinkedRow(h, LatestHash(table, f.tenantId), f, s)
  }

  /** The table is kept in `seq` order and only ever appended to. */
  class AuditRepository {
    const h: Hasher
    var table: seq<Row>

    constructor (h: Hasher, legacy: seq<Row>)
      ensures this.h == h && table == legacy
    {
      this.h := h;
      table := legacy;
    }

    // SELECT hash ... ORDER BY seq DESC LIMIT 1: scans back to the tenant's latest row.
    method SelectLatestHash(tenant: string) returns (hash: Digest)
      ensures hash == LatestHash(table, tenant)
    {
      var i := |table|;
      assert table[..i] == table;
      while 0 < i && table[i - 1].fields.tenantId != tenant
        invariant 0 <= i <= |table|
        invariant TenantRows(table[..i], tenant) == TenantRows(table, tenant)
      {
        assert table[..i][..i - 1] == table[..i - 1];
        i := i - 1;
      }
      assert table[..0] == [];
      if 0 < i {
        assert table[..i][i - 1] == table[i - 1];
        return if table[i - 1].hash.Some? then table[i - 1].hash.value else GENESIS;
      }
      return GENESIS;
    }

    method Append(f: Fields, s: Stamp) returns (hash: Digest)
      modifies this
      ensures table == old(table) + [NewRow(h, old(table), f, s)]
      ensures Some(hash) == table[|old(table)|].hash
    {
      var prev := SelectLatestHash(f.tenantId);
      hash := h.Compute(prev, f);
      table := table + [Row(s.auditId, f, s.ipAddress, s.recordedAt, s.seqNo, Some(prev), Some(hash))];
    }
  }

  predicate MembersOf(chain: seq<Row>, tenant: string) {
    forall n :: 0 <= n < |chain| ==> chain[n].hash.Some? && chain[n].fields.tenantId == tenant
  }

  lemma {:induction false} IterChainMembers(table: seq<Row>, tenant: string)
    ensures MembersOf(IterChain(table, tenant), tenant)
  {
    if table != [] {
      IterChainMembers(table[..|table| - 1], tenant);
    }
  }

  lemma AppendExtendsChain(h: Hasher, chain: seq<Row>, row: Row)
    requires ChainOk(h, chain)
    ensures ChainOk(h, chain + [row]) <==>
            && HashBefore(chain, |chain|).Some?
            && row.prevHash == HashBefore(chain, |chain|)
            && row.hash == Some(h.Compute(HashBefore(chain, |chain|).value, row.fields))
  {
    var grown := chain + [row];
    assert grown[..|chain|] == chain;
    forall n | 0 <= n < |chain|
      ensures LinkOk(h, grown, n)
    {
      LinkOfPrefix(h, grown, |chain|, n);
    }
    assert HashBefore(grown, |chain|) == HashBefore(chain, |chain|);
    assert LinkOk(h, grown, |chain|) <==> ChainOk(h, grown);
  }

  /** The tenant's latest row, of any kind, carries the head of its chain. */
  predicate LatestIsHead(table: seq<Row>, tenant: string) {
    var chain := IterChain(table, tenant);
    Some(LatestHash(table, tenant)) == HashBefore(chain, |chain|)
  }

  /** Whatever hash an append has read, and whenever it did: its row keeps the
      tenant's valid chain valid exactly when that hash is the head at the time
      of the insert. */
  lemma InsertKeepsChainIff(h: Hasher, table: seq<Row>, prev: Digest, f: Fields, s: Stamp)
    requires ChainOk(h, IterChain(table, f.tenantId))
    ensures var chain := IterChain(table, f.tenantId);
            var grown := table + [LinkedRow(h, prev, f, s)];
            && IterChain(grown, f.tenantId) == chain + [LinkedRow(h, prev, f, s)]
            && (ChainOk(h, IterChain(grown, f.tenantId)) <==> Some(prev) == HashBefore(chain, |chain|))
            && (forall t :: t != f.tenantId ==> IterChain(grown, t) == IterChain(table, t))
  {
    var row := LinkedRow(h, prev, f, s);
    assert (table + [row])[..|table|] == table;
    AppendExtendsChain(h, IterChain(table, f.tenantId), row);
    IterChainMembers(table, f.tenantId);
  }

  /** An append keeps the appending tenant's valid chain valid exactly when the
      hash it reads is the head: an un-hashed row in between restarts the chain
      from genesis and breaks it. Every other tenant's chain is unchanged. */
  lemma AppendKeepsChainIff(h: Hasher, table: seq<Row>, f: Fields, s: Stamp)
    requires ChainOk(h, IterChain(table, f.tenantId))
    ensures var grown := table + [NewRow(h, table, f, s)];
            && (ChainOk(h, IterChain(grown, f.tenantId)) <==> LatestIsHead(table, f.tenantId))
            && IterChain(grown, f.tenantId) == IterChain(table, f.tenantId) + [NewRow(h, table, f, s)]
            && (forall t :: t != f.tenantId ==> IterChain(grown, t) == IterChain(table, t))
            && LatestIsHead(grown, f.tenantId)
            && (forall t :: t != f.tenantId ==> LatestHash(grown, t) == LatestHash(table, t))
  {
    InsertKeepsChainIff(h, table, LatestHash(table, f.tenantId), f, s);
    assert (table + [NewRow(h, table, f, s)])[..|table|] == table;
  }

  /** Two appends of one tenant that read before either inserts, as the first two
      ever can: the second breaks the chain, unless the first row's hash is the
      very hash both read. */
  lemma RacingAppendsIff(h: Hasher, table: seq<Row>, f: Fields, g: Fields, s: Stamp, r: Stamp)
    requires f.tenantId == g.tenantId
    requires ChainOk(h, IterChain(table, f.tenantId)) && LatestIsHead(table, f.tenantId)
    ensures var prev := LatestHash(table, f.tenantId);
            var first := table + [LinkedRow(h, prev, f, s)];
            && ChainOk(h, IterChain(first, f.tenantId))
            && (ChainOk(h, IterChain(first + [LinkedRow(h, prev, g, r)], f.tenantId)) <==> h.Compute(prev, f) == prev)
  {
    var prev := LatestHash(table, f.tenantId);
    InsertKeepsChainIff(h, table, prev, f, s);
    InsertKeepsChainIff(h, table + [LinkedRow(h, prev, f, s)], prev, g, r);
  }

  /** It can come to that: a row without a hash after one with a hash hides the head. */
  lemma UnhashedRowHidesHead(h: Hasher, f: Fields, s: Stamp)
    requires h.Compute(GENESIS, f) != GENESIS
    ensures var table := [NewRow(h, [], f, s), Row("", f, "", 0, 0, None, None)];
            ChainOk(h, IterChain(table, f.tenantId)) && !LatestIsHead(table, f.tenantId)
  {
    var first := NewRow(h, [], f, s);
    var table := [first, Row("", f, "", 0, 0, None, None)];
    assert table[..1] == [first] && [first][..0] == [];
    assert TenantRows([first], f.tenantId) == [first];
    assert TenantRows(table, f.tenantId) == table;
    assert IterChain([first], f.tenantId) == [first];
    assert IterChain(table, f.tenantId) == [first];
  }

  predicate Legacy(table: seq<Row>) {
    forall n :: 0 <= n < |table| ==> table[n].hash.None?
  }

  // Serialized appends, oldest first.
  function AppendAll(h: Hasher, legacy: seq<Row>, log: seq<(Fields, Stamp)>): seq<Row> {
    if log == [] then legacy
    else
      var table := AppendAll(h, legacy, log[..|log| - 1]);
      table + [NewRow(h, table, log[|log| - 1].0, log[|log| - 1].1)]
  }

  function CountFor(log: seq<(Fields, Stamp)>, tenant: string): nat {
    if log == [] then 0
    else CountFor(log[..|log| - 1], tenant) + if log[|log| - 1].0.tenantId == tenant then 1 else 0
  }

  lemma {:induction false} LegacyHasNoChain(table: seq<Row>, tenant: string)
    requires Legacy(table)
    ensures IterChain(table, tenant) == [] && LatestIsHead(table, tenant)
  {
    if table != [] {
      LegacyHasNoChain(table[..|table| - 1], tenant);
    }
    LatestOfLegacy(table, tenant);
  }

  lemma {:induction false} LatestOfLegacy(table: seq<Row>, tenant: string)
    requires Legacy(table)
    ensures LatestHash(table, tenant) == GENESIS
  {
    if table != [] {
      LatestOfLegacy(table[..|table| - 1], tenant);
    }
  }

  /** After any un-hashed prefix, any mix of tenants' appends leaves every
      tenant with a valid chain holding exactly its appended rows. */
  lemma {:induction false} SerializedAppendsVerify(h: Hasher, legacy: seq<Row>, log: seq<(Fields, Stamp)>, tenant: string)
    requires Legacy(legacy)
    ensures var table := AppendAll(h, legacy, log);
            && ChainOk(h, IterChain(table, tenant))
            && |IterChain(table, tenant)| == CountFor(log, tenant)
            && LatestIsHead(table, tenant)
  {
    if log == [] {
      LegacyHasNoChain(legacy, tenant);
    } else {
      var n := |log| - 1;
      var table := AppendAll(h, legacy, log[..n]);
      SerializedAppendsVerify(h, legacy, log[..n], tenant);
      SerializedAppendsVerify(h, legacy, log[..n], log[n].0.tenantId);
      AppendKeepsChainIff(h, table, log[n].0, log[n].1);
    }
  }

  /** Editing the hashed fields of one stored row of a valid chain is caught at
      that very row, wherever the rows before it are untouched. */
  lemma TamperingIsCaughtAtTheRow(h: Hasher, chain: seq<Row>, edited: seq<Row>, k: nat)
    requires h.WellFormed() && ChainOk(h, chain) && k < |chain| && k < |edited|
    requires edited[..k] == chain[..k]
    requires edited[k].prevHash == chain[k].prevHash && edited[k].hash == chain[k].hash
    requires edited[k].fields != chain[k].fields
    requires LinkOk(h, chain, k) &&
             var before := HashBefore(chain, k).value;
             h.Compute(before, edited[k].fields) == h.Compute(before, chain[k].fields) ==>
               before + h.canon(edited[k].fields) == before + h.canon(chain[k].fields)
    ensures ChainOk(h, edited[..k]) && !LinkOk(h, edited, k)
  {
    assert HashBefore(edited, k) == HashBefore(chain, k) by {
      if k > 0 { assert edited[..k][k - 1] == chain[..k][k - 1]; }
    }
    PrefixOk(h, chain, k);
    var before := HashBefore(chain, k).value;
    assert (before + h.canon(edited[k].fields))[|before|..] == h.canon(edited[k].fields);
    assert (before + h.canon(chain[k].fields))[|before|..] == h.canon(chain[k].fields);
  }

  // ------------------------------------------------------------------
  // Verifying part of a chain
  // ------------------------------------------------------------------

  predicate Selected(r: Row, start: Option<int>, end: Option<int>) {
    (start.Some? ==> start.value <= r.recordedAt) && (end.Some? ==> r.recordedAt <= end.value)
  }

  // iter_chain's optional bounds on recorded_at
  function Between(rows: seq<Row>, start: Option<int>, end: Option<int>): seq<Row> {
    if rows == [] then []
    else
      var rest := Between(rows[..|rows| - 1], start, end);
      if Selected(rows[|rows| - 1], start, end) then rest + [rows[|rows| - 1]] else rest
  }

  lemma {:induction false} BetweenMembers(rows: seq<Row>, tenant: string, start: Option<int>, end: Option<int>)
    requires MembersOf(rows, tenant)
    ensures MembersOf(Between(rows, start, end), tenant)
    ensures start.None? && end.None? ==> Between(rows, start, end) == rows
  {
    if rows != [] {
      BetweenMembers(rows[..|rows| - 1], tenant, start, end);
    }
  }

  // Recorded before the period or after it.
  predicate Outside(r: Row, start: Option<int>, end: Option<int>) {
    (start.Some? && r.recordedAt < start.value) || (end.Some? && end.value < r.recordedAt)
  }

  predicate Counts(r: Row, tenant: string, start: Option<int>, end: Option<int>) {
    r.fields.tenantId == tenant && r.hash.Some? && !Outside(r, start, end)
  }

  /** The places in the table of the tenant's hashed rows recorded from `start` to `end`. */
  function InRange(table: seq<Row>, tenant: string, start: Option<int>, end: Option<int>): set<nat> {
    set n: nat | n < |table| && Counts(table[n], tenant, start, end)
  }

  predicate Increasing(idx: seq<nat>) {
    forall i, j :: 0 <= i < j < |idx| ==> idx[i] < idx[j]
  }

  ghost predicate InOrder(places: set<nat>, idx: seq<nat>) {
    Increasing(idx) && forall n :: n in idx <==> n in places
  }

  /** `rows` are the rows at those places and no others, in table order. */
  ghost predicate Lists(table: seq<Row>, places: set<nat>, idx: seq<nat>, rows: seq<Row>) {
    && InOrder(places, idx)
    && |rows| == |idx| && forall i :: 0 <= i < |idx| ==> idx[i] < |table| && rows[i] == table[idx[i]]
  }

  lemma ReadGrows(table: seq<Row>, row: Row, tenant: string, start: Option<int>, end: Option<int>)
    ensures Between(IterChain(table + [row], tenant), start, end) ==
            Between(IterChain(table, tenant), start, end) + if Counts(row, tenant, start, end) then [row] else []
  {
    var rest := IterChain(table, tenant);
    assert (table + [row])[..|table|] == table;
    assert (rest + [row])[..|rest|] == rest;
  }

  lemma ListingGrows(table: seq<Row>, row: Row, tenant: string, start: Option<int>, end: Option<int>, idx: seq<nat>, rows: seq<Row>)
    requires Lists(table, InRange(table, tenant, start, end), idx, rows)
    ensures Lists(table + [row], InRange(table + [row], tenant, start, end),
                  idx + (if Counts(row, tenant, start, end) then [|table|] else []),
                  rows + (if Counts(row, tenant, start, end) then [row] else []))
  {
    assert InRange(table + [row], tenant, start, end) ==
           InRange(table, tenant, start, end) + if Counts(row, tenant, start, end) then {|table|} else {};
  }

  // What is read between the bounds is a listing of the rows in range.
  lemma {:induction false} BetweenLists(table: seq<Row>, tenant: string, start: Option<int>, end: Option<int>) returns (idx: seq<nat>)
    ensures Lists(table, InRange(table, tenant, start, end), idx, Between(IterChain(table, tenant), start, end))
  {
    if table == [] {
      idx := [];
    } else {
      var n := |table| - 1;
      idx := BetweenLists(table[..n], tenant, start, end);
      ListingGrows(table[..n], table[n], tenant, start, end, idx, Between(IterChain(table[..n], tenant), start, end));
      ReadGrows(table[..n], table[n], tenant, start, end);
      assert table == table[..n] + [table[n]];
      idx := idx + if Counts(table[n], tenant, start, end) then [n] else [];
    }
  }

  lemma {:induction false} ListingCounts(table: seq<Row>, places: set<nat>, idx: seq<nat>, rows: seq<Row>)
    requires Lists(table, places, idx, rows)
    ensures |rows| == |places|
  {
    if idx == [] {
      assert places == {};
    } else {
      var n := |idx| - 1;
      LastPlace(places, idx);
      ListingCounts(table, places - {idx[n]}, idx[..n], rows[..n]);
    }
  }

  // The last place is the greatest; what is left is in order too.
  lemma LastPlace(places: set<nat>, idx: seq<nat>)
    requires InOrder(places, idx) && idx != []
    ensures var n := |idx| - 1;
            idx[n] in places && (forall m :: m in places ==> m <= idx[n]) && InOrder(places - {idx[n]}, idx[..n])
  {
    var n := |idx| - 1;
    assert idx == idx[..n] + [idx[n]];
  }

  lemma {:induction false} OneOrder(places: set<nat>, a: seq<nat>, b: seq<nat>)
    requires InOrder(places, a) && InOrder(places, b)
    ensures a == b
    decreases |a|
  {
    assert (a != [] ==> a[0] in places) && (b != [] ==> b[0] in places);
    if a != [] && b != [] {
      var m, n := |a| - 1, |b| - 1;
      LastPlace(places, a);
      LastPlace(places, b);
      OneOrder(places - {a[m]}, a[..m], b[..n]);
      assert a == a[..m] + [a[m]] && b == b[..n] + [b[n]];
    }
  }

  /** The same places have one listing. */
  lemma OneListing(table: seq<Row>, places: set<nat>, a: seq<nat>, b: seq<nat>, x: seq<Row>, y: seq<Row>)
    requires Lists(table, places, a, x) && Lists(table, places, b, y)
    ensures a == b && x == y
  {
    OneOrder(places, a, b);
  }

  /** The answer about one tenant's rows recorded from `start` to `end`. */
  ghost predicate Verdict(h: Hasher, table: seq<Row>, tenant: string, start: Option<int>, end: Option<int>, r: VerificationResult) {
    exists idx, rows :: Lists(table, InRange(table, tenant, start, end), idx, rows) && Answers(h, rows, r)
  }

  /** There is one such answer, and when it is yes it has counted exactly the
      tenant's hashed rows in the period. */
  lemma OneVerdict(h: Hasher, table: seq<Row>, tenant: string, start: Option<int>, end: Option<int>,
                   a: VerificationResult, b: VerificationResult)
    requires Verdict(h, table, tenant, start, end, a) && Verdict(h, table, tenant, start, end, b)
    ensures a == b
    ensures a.valid ==> a.verifiedCount == |InRange(table, tenant, start, end)|
  {
    var places := InRange(table, tenant, start, end);
    var i, x :| Lists(table, places, i, x) && Answers(h, x, a);
    var j, y :| Lists(table, places, j, y) && Answers(h, y, b);
    OneListing(table, places, i, j, x, y);
    OneAnswer(h, x, a, b);
    ListingCounts(table, places, i, x);
  }

  // Two tables that agree except for rows recorded outside the period, be they changed, added at the end or gone from it.
  predicate AgreeInside(a: seq<Row>, b: seq<Row>, start: Option<int>, end: Option<int>) {
    forall n :: 0 <= n < Max(|a|, |b|) ==>
      || (n < |a| && n < |b| && a[n] == b[n])
      || ((n < |a| ==> Outside(a[n], start, end)) && (n < |b| ==> Outside(b[n], start, end)))
  }

  /** Rows recorded before `start` or after `end` never change the answer. */
  lemma OutsideIsIgnored(h: Hasher, a: seq<Row>, b: seq<Row>, tenant: string, start: Option<int>, end: Option<int>,
                         r: VerificationResult)
    requires AgreeInside(a, b, start, end) && Verdict(h, a, tenant, start, end, r)
    ensures Verdict(h, b, tenant, start, end, r)
  {
    var places := InRange(a, tenant, start, end);
    assert places == InRange(b, tenant, start, end);
    var idx, rows :| Lists(a, places, idx, rows) && Answers(h, rows, r);
    forall i | 0 <= i < |idx|
      ensures idx[i] < |b| && rows[i] == b[idx[i]]
    {
      assert idx[i] in places;
    }
    assert Lists(b, places, idx, rows);
  }

  // Recorded in order: no row earlier than the one before it.
  predicate InTimeOrder(rows: seq<Row>) {
    forall n :: 0 < n < |rows| ==> rows[n - 1].recordedAt <= rows[n].recordedAt
  }

  lemma {:induction false} TimeOrder(rows: seq<Row>, i: nat, j: nat)
    requires InTimeOrder(rows) && i <= j < |rows|
    ensures rows[i].recordedAt <= rows[j].recordedAt
  {
    if i < j {
      TimeOrder(rows, i, j - 1);
    }
  }

  lemma {:induction false} BetweenTakes(rows: seq<Row>, start: Option<int>, end: Option<int>, i: nat, j: nat)
    requires i <= j <= |rows|
    requires forall k :: 0 <= k < |rows| ==> (Selected(rows[k], start, end) <==> i <= k < j)
    ensures Between(rows, start, end) == rows[i..j]
  {
    if rows != [] {
      var n := |rows| - 1;
      if j == n + 1 && i <= n {
        BetweenTakes(rows[..n], start, end, i, n);
        assert rows[i..j] == rows[..n][i..n] + [rows[n]];
      } else if j == n + 1 {
        BetweenTakes(rows[..n], start, end, n, n);
      } else {
        BetweenTakes(rows[..n], start, end, i, j);
        assert rows[i..j] == rows[..n][i..j];
      }
    }
  }

  lemma SelectedBetween(rows: seq<Row>, start: Option<int>, end: Option<int>, i: nat, j: nat, k: nat)
    requires InTimeOrder(rows) && i <= j <= k < |rows| && Selected(rows[i], start, end) && Selected(rows[k], start, end)
    ensures Selected(rows[j], start, end)
  {
    TimeOrder(rows, i, j);
    TimeOrder(rows, j, k);
  }

  // What the bounds select is a stretch of the chain.
  lemma BetweenIsStretch(rows: seq<Row>, start: Option<int>, end: Option<int>) returns (i: nat, j: nat)
    requires InTimeOrder(rows)
    ensures i <= j <= |rows| && Between(rows, start, end) == rows[i..j]
  {
    i := 0;
    while i < |rows| && !Selected(rows[i], start, end)
      invariant i <= |rows| && forall k :: 0 <= k < i ==> !Selected(rows[k], start, end)
    {
      i := i + 1;
    }
    j := i;
    while j < |rows| && Selected(rows[j], start, end)
      invariant i <= j <= |rows| && forall k :: i <= k < j ==> Selected(rows[k], start, end)
    {
      j := j + 1;
    }
    forall k | j <= k < |rows|
      ensures !Selected(rows[k], start, end)
    {
      if Selected(rows[k], start, end) {
        SelectedBetween(rows, start, end, i, j, k);
      }
    }
    BetweenTakes(rows, start, end, i, j);
  }

  lemma StretchLinks(h: Hasher, chain: seq<Row>, i: nat, j: nat, n: nat)
    requires i <= j <= |chain| && 0 < n < j - i
    ensures LinkOk(h, chain[i..j], n) <==> LinkOk(h, chain, i + n)
  {
    assert chain[i..j][n] == chain[i + n] && chain[i..j][n - 1] == chain[i + n - 1];
  }

  // The walk always starts from the genesis value.
  lemma StretchVerifiesIff(h: Hasher, chain: seq<Row>, start: Option<int>, end: Option<int>)
    requires ChainOk(h, chain) && InTimeOrder(chain)
    ensures var rows := Between(chain, start, end);
            ChainOk(h, rows) <==> rows == [] || rows[0].prevHash == Some(GENESIS)
  {
    var i, j := BetweenIsStretch(chain, start, end);
    var rows := chain[i..j];
    if i < j {
      assert rows[0] == chain[i] && LinkOk(h, chain, i);
      assert LinkOk(h, rows, 0) <==> chain[i].prevHash == Some(GENESIS);
      forall n | 0 < n < |rows|
        ensures LinkOk(h, rows, n)
      {
        StretchLinks(h, chain, i, j, n);
        assert LinkOk(h, chain, i + n);
      }
    }
  }

  // The tenant's hashed rows were recorded in the order they stand in.
  predicate Chronological(table: seq<Row>, tenant: string) {
    var places := InRange(table, tenant, None, None);
    forall m, n :: m in places && n in places && m < n ==> table[m].recordedAt <= table[n].recordedAt
  }

  // Place n is in the period, is its first, and its row links to the genesis value.
  predicate BeginsAtGenesis(table: seq<Row>, places: set<nat>, n: nat) {
    n in places && n < |table| && (forall m :: m in places ==> n <= m) && table[n].prevHash == Some(GENESIS)
  }

  lemma FirstListed(table: seq<Row>, places: set<nat>, idx: seq<nat>, rows: seq<Row>)
    requires Lists(table, places, idx, rows)
    ensures rows == [] <==> places == {}
    ensures rows != [] ==> (rows[0].prevHash == Some(GENESIS) <==> exists n :: BeginsAtGenesis(table, places, n))
  {
    if rows == [] {
      assert forall n :: n in places ==> n in idx;
    } else {
      assert idx[0] in places;
      assert forall m :: m in places ==> m in idx && idx[0] <= m;
      assert BeginsAtGenesis(table, places, idx[0]) <==> rows[0].prevHash == Some(GENESIS);
    }
  }

  /** A verification bounded in time, of a chain that verifies as a whole and was
      recorded in order, succeeds exactly when no row falls in the period, or the
      first that does links to the genesis value. */
  lemma BoundedVerifiesIff(h: Hasher, table: seq<Row>, tenant: string, start: Option<int>, end: Option<int>,
                           whole: VerificationResult, r: VerificationResult)
    requires Verdict(h, table, tenant, None, None, whole) && whole.valid && Chronological(table, tenant)
    requires Verdict(h, table, tenant, start, end, r)
    ensures var places := InRange(table, tenant, start, end);
            r.valid <==> places == {} || exists n :: BeginsAtGenesis(table, places, n)
  {
    var chain := WholeChain(h, table, tenant, whole);
    StretchVerifiesIff(h, chain, start, end);
    var places := InRange(table, tenant, start, end);
    var rows := Between(chain, start, end);
    var idx := BetweenLists(table, tenant, start, end);
    var j, y :| Lists(table, places, j, y) && Answers(h, y, r);
    OneListing(table, places, idx, j, rows, y);
    FirstListed(table, places, idx, rows);
  }

  // What verifies as a whole is the tenant's chain, and it stands in order of time.
  lemma WholeChain(h: Hasher, table: seq<Row>, tenant: string, whole: VerificationResult) returns (chain: seq<Row>)
    requires Verdict(h, table, tenant, None, None, whole) && whole.valid && Chronological(table, tenant)
    ensures chain == IterChain(table, tenant) && ChainOk(h, chain) && InTimeOrder(chain)
  {
    chain := IterChain(table, tenant);
    IterChainMembers(table, tenant);
    BetweenMembers(chain, tenant, None, None);
    var places := InRange(table, tenant, None, None);
    var idx := BetweenLists(table, tenant, None, None);
    var i, x :| Lists(table, places, i, x) && Answers(h, x, whole);
    OneListing(table, places, idx, i, chain, x);
    forall n | 0 < n < |chain|
      ensures chain[n - 1].recordedAt <= chain[n].recordedAt
    {
      assert idx[n - 1] in places && idx[n] in places;
    }
  }

  class AuditVerifier {
    const repo: AuditRepository

    constructor (repo: AuditRepository)
      ensures this.repo == repo
    {
      this.repo := repo;
    }

    /** Verifies one tenant's stored chain between two optional times. */
    method VerifyChain(tenant: string, start: Option<int>, end: Option<int>) returns (r: VerificationResult)
      ensures Verdict(repo.h, repo.table, tenant, start, end, r)
      ensures r.valid ==> r.verifiedCount == |InRange(repo.table, tenant, start, end)|
    {
      var rows := Between(IterChain(repo.table, tenant), start, end);
      IterChainMembers(repo.table, tenant);
      BetweenMembers(IterChain(repo.table, tenant), tenant, start, end);
      ghost var idx := BetweenLists(repo.table, tenant, start, end);
      r := WalkChain(repo.h, rows);
      OneVerdict(repo.h, repo.table, tenant, start, end, r, r);
    }
  }
}
