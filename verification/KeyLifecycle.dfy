/** Envelope encryption, crypto-shredding and the erasure job (`encryption/
    envelope.py`, `dek_store.py`, `crypto_shred.py`, `privacy/erasure.py`).
    AES-GCM and the key service are parameters, used only through their being
    inverse pairs. */
module KeyLifecycle {
  import opened Common
  import opened EnvelopeCodec

  type Key = Bytes

  /** AES-GCM (sections 7.1 and 7.2 of NIST SP 800-38D) and KEK wrapping. */
  datatype Crypto = Crypto(
    wrap: (string, Key) -> Bytes, unwrap: (string, Bytes) -> Key,
    seal: (Key, Bytes, Bytes) -> (Bytes, Bytes),             // key, nonce, plaintext
    open: (Key, Bytes, Bytes, Bytes) -> Option<Bytes>)       // key, nonce, ciphertext, tag
  {
    ghost predicate Inverse() {
      && (forall kek, dek :: unwrap(kek, wrap(kek, dek)) == dek)
      && (forall k, n, p :: open(k, n, seal(k, n, p).0, seal(k, n, p).1) == Some(p))
    }
  }

  type Store = map<(string, string), (Bytes, string)>

  datatype DecryptError = KeyNotFound | InvalidTag

  function KekIdFor(tenant: string): string { "tenant-" + tenant }

  function Seal(c: Crypto, dek: Key, nonce: Bytes, dekId: string, plaintext: Bytes): EncryptedPayload {
    var (ciphertext, tag) := c.seal(dek, nonce, plaintext);
    EncryptedPayload(ciphertext, dekId, nonce, tag)
  }

  function Decrypted(c: Crypto, store: Store, p: EncryptedPayload, tenant: string): Result<Bytes, DecryptError> {
    if (tenant, p.dekId) !in store then Err(KeyNotFound)
    else
      var (wrapped, kek) := store[(tenant, p.dekId)];
      var plain := c.open(c.unwrap(kek, wrapped), p.iv, p.ciphertext, p.tag);
      if plain.Some? then Ok(plain.value) else Err(InvalidTag)
  }

  class InMemoryDEKStore {
    var store: Store

    constructor ()
      ensures store == map[]
    {
      store := map[];
    }

    method Put(tenant: string, dekId: string, wrapped: Bytes, kekId: string)
      modifies this
      ensures store == old(store)[(tenant, dekId) := (wrapped, kekId)]
    {
      store := store[(tenant, dekId) := (wrapped, kekId)];
    }

    method Get(tenant: string, dekId: string) returns (r: Option<(Bytes, string)>)
      ensures r == if (tenant, dekId) in store then Some(store[(tenant, dekId)]) else None
    {
      r := if (tenant, dekId) in store then Some(store[(tenant, dekId)]) else None;
    }

    method Delete(tenant: string, dekId: string)
      modifies this
      ensures store == old(store) - {(tenant, dekId)}
    {
      store := store - {(tenant, dekId)};
    }
  }

  class EnvelopeEncryption {
    const c: Crypto
    const deks: InMemoryDEKStore

    constructor (c: Crypto, deks: InMemoryDEKStore)
      ensures this.c == c && this.deks == deks
    {
      this.c, this.deks := c, deks;
    }

    // The fresh key, nonce and key id are supplied by the caller.
    method Encrypt(plaintext: Bytes, tenant: string, dek: Key, nonce: Bytes, dekId: string) returns (p: EncryptedPayload)
      modifies deks
      ensures p == Seal(c, dek, nonce, dekId, plaintext)
      ensures deks.store == old(deks.store)[(tenant, dekId) := (c.wrap(KekIdFor(tenant), dek), KekIdFor(tenant))]
    {
      var kekId := KekIdFor(tenant);
      var wrapped := c.wrap(kekId, dek);
      p := Seal(c, dek, nonce, dekId, plaintext);
      deks.Put(tenant, dekId, wrapped, kekId);
    }

    method Decrypt(p: EncryptedPayload, tenant: string) returns (r: Result<Bytes, DecryptError>)
      ensures r == Decrypted(c, deks.store, p, tenant)
    {
      var record := deks.Get(tenant, p.dekId);
      if record.None? {
        return Err(KeyNotFound);
      }
      var (wrapped, kekId) := record.value;
      var dek := c.unwrap(kekId, wrapped);
      var plain := c.open(dek, p.iv, p.ciphertext, p.tag);
      r := if plain.Some? then Ok(plain.value) else Err(InvalidTag);
    }
  }

  // ------------------------------------------------------------------
  // Erasure
  // ------------------------------------------------------------------

  datatype ShredRecord = ShredRecord(tenant: string, actor: string, dekId: string)

  datatype Certificate = Certificate(tenant: string, customer: string, scope: seq<string>)

  function ShredKeys(tenant: string, dekIds: seq<string>): set<(string, string)> {
    set i | 0 <= i < |dekIds| :: (tenant, dekIds[i])
  }

  function ShredRecords(tenant: string, actor: string, dekIds: seq<string>): seq<ShredRecord> {
    seq(|dekIds|, i requires 0 <= i < |dekIds| => ShredRecord(tenant, actor, dekIds[i]))
  }

  function Scope(dekIds: seq<string>): seq<string> {
    ["postgres_pii", "audio_recordings"] + seq(|dekIds|, i requires 0 <= i < |dekIds| => "dek:" + dekIds[i])
  }

  /** A certificate's scope names exactly the keys it was given, beside the two
      stores that are always cleared. */
  lemma ScopeNamesKeys(dekIds: seq<string>, d: string)
    ensures "dek:" + d in Scope(dekIds) <==> d in dekIds
    ensures Scope(dekIds)[..2] == ["postgres_pii", "audio_recordings"] && |Scope(dekIds)| == 2 + |dekIds|
  {
    var name := "dek:" + d;
    assert name[0] == 'd' && "postgres_pii"[0] == 'p' && "audio_recordings"[0] == 'a';
    if name in Scope(dekIds) {
      var i :| 0 <= i < |Scope(dekIds)| && Scope(dekIds)[i] == name;
      assert name[4..] == d && ("dek:" + dekIds[i - 2])[4..] == dekIds[i - 2];
    }
    if d in dekIds {
      var i :| 0 <= i < |dekIds| && dekIds[i] == d;
      assert Scope(dekIds)[i + 2] == name;
    }
  }

  class CryptoShredder {
    const deks: InMemoryDEKStore
    const audited: bool     // whether there is an audit repository
    var audit: seq<ShredRecord>

    constructor (deks: InMemoryDEKStore, audited: bool)
      ensures this.deks == deks && this.audited == audited && audit == []
    {
      this.deks, this.audited := deks, audited;
      audit := [];
    }

    // What shredding these keys adds to the audit log.
    function Trail(tenant: string, actor: string, dekIds: seq<string>): seq<ShredRecord> {
      if audited then ShredRecords(tenant, actor, dekIds) else []
    }

    // A no-op on a key that is already gone, but audited all the same.
    method Shred(tenant: string, recordId: string, actor: string)
      modifies this, deks
      ensures deks.store == old(deks.store) - {(tenant, recordId)}
      ensures audit == old(audit) + if audited then [ShredRecord(tenant, actor, recordId)] else []
    {
      deks.Delete(tenant, recordId);
      if audited {
        audit := audit + [ShredRecord(tenant, actor, recordId)];
      }
    }
  }

  class DataErasureJob {
    const shredder: CryptoShredder
    var tombstoned: set<(string, string)>
    var objects: set<string>
    var certificates: seq<Certificate>

    constructor (shredder: CryptoShredder, objects: set<string>)
      ensures this.shredder == shredder && this.objects == objects && tombstoned == {} && certificates == []
    {
      this.shredder, this.objects := shredder, objects;
      tombstoned, certificates := {}, [];
    }

    /** Without a revoked consent on record nothing at all changes; with one,
        exactly the listed keys and objects go, and a certificate says so. */
    method Execute(tenant: string, customer: string, consent: Option<string>, dekIds: seq<string>,
                   audioKeys: seq<string>, actor: string)
      returns (done: bool)
      modifies this, shredder, shredder.deks
      ensures done <==> consent == Some("REVOKED")
      ensures !done ==> unchanged(this) && unchanged(shredder) && unchanged(shredder.deks)
      ensures done ==>
                && shredder.deks.store == old(shredder.deks.store) - ShredKeys(tenant, dekIds)
                && shredder.audit == old(shredder.audit) + shredder.Trail(tenant, actor, dekIds)
                && tombstoned == old(tombstoned) + {(tenant, customer)}
                && objects == old(objects) - (set k | k in audioKeys)
                && certificates == old(certificates) + [Certificate(tenant, customer, Scope(dekIds))]
    {
      if consent != Some("REVOKED") {
        return false;
      }
      for i := 0 to |dekIds|
        invariant shredder.deks.store == old(shredder.deks.store) - ShredKeys(tenant, dekIds[..i])
        invariant shredder.audit == old(shredder.audit) + shredder.Trail(tenant, actor, dekIds[..i])
        invariant unchanged(this)
      {
        shredder.Shred(tenant, dekIds[i], actor);
        KeysGrow(tenant, dekIds, i);
        assert ShredRecords(tenant, actor, dekIds[..i + 1])
            == ShredRecords(tenant, actor, dekIds[..i]) + [ShredRecord(tenant, actor, dekIds[i])];
      }
      assert dekIds[..|dekIds|] == dekIds;
      tombstoned := tombstoned + {(tenant, customer)};
      for i := 0 to |audioKeys|
        invariant objects == old(objects) - (set k | k in audioKeys[..i])
        invariant tombstoned == old(tombstoned) + {(tenant, customer)} && certificates == old(certificates)
        invariant shredder.deks.store == old(shredder.deks.store) - ShredKeys(tenant, dekIds)
        invariant shredder.audit == old(shredder.audit) + shredder.Trail(tenant, actor, dekIds)
      {
        objects := objects - {audioKeys[i]};
      }
      assert audioKeys[..|audioKeys|] == audioKeys;
      certificates := certificates + [Certificate(tenant, customer, Scope(dekIds))];
      return true;
    }
  }

  lemma KeysGrow(tenant: string, dekIds: seq<string>, i: nat)
    requires i < |dekIds|
    ensures ShredKeys(tenant, dekIds[..i + 1]) == ShredKeys(tenant, dekIds[..i]) + {(tenant, dekIds[i])}
  {
    assert dekIds[..i + 1][i] == dekIds[i];
    forall k | k in ShredKeys(tenant, dekIds[..i])
      ensures k in ShredKeys(tenant, dekIds[..i + 1])
    {
      var j :| 0 <= j < i && k == (tenant, dekIds[..i][j]);
      assert k == (tenant, dekIds[..i + 1][j]);
    }
    forall k | k in ShredKeys(tenant, dekIds[..i + 1])
      ensures k in ShredKeys(tenant, dekIds[..i]) + {(tenant, dekIds[i])}
    {
      var j :| 0 <= j < i + 1 && k == (tenant, dekIds[..i + 1][j]);
      assert j < i ==> k == (tenant, dekIds[..i][j]);
    }
  }

  // ------------------------------------------------------------------
  // Every run of encrypts, shreds and erasures
  // ------------------------------------------------------------------

  datatype Record = Record(tenant: string, payload: EncryptedPayload, plaintext: Bytes, dek: Key, shredded: bool)

  datatype World = World(store: Store, records: seq<Record>)

  datatype Op =
    | EncryptOp(tenant: string, plaintext: Bytes, dek: Key, nonce: Bytes, dekId: string)
    | ShredOp(tenant: string, dekId: string)
    | EraseOp(tenant: string, consent: Option<string>, dekIds: seq<string>)

  // Key ids are fresh UUIDs: never the id of an earlier record, of any tenant.
  predicate Allowed(w: World, op: Op) {
    op.EncryptOp? ==> forall i :: 0 <= i < |w.records| ==> w.records[i].payload.dekId != op.dekId
  }

  function Mark(records: seq<Record>, gone: set<(string, string)>): (r: seq<Record>)
    ensures |r| == |records|
    ensures forall i :: 0 <= i < |records| ==>
              r[i] == records[i].(shredded := records[i].shredded || (records[i].tenant, records[i].payload.dekId) in gone)
  {
    seq(|records|, i requires 0 <= i < |records| =>
      records[i].(shredded := records[i].shredded || (records[i].tenant, records[i].payload.dekId) in gone))
  }

  function Apply(c: Crypto, w: World, op: Op): World {
    match op
    case EncryptOp(tenant, plaintext, dek, nonce, dekId) =>
      World(w.store[(tenant, dekId) := (c.wrap(KekIdFor(tenant), dek), KekIdFor(tenant))],
            w.records + [Record(tenant, Seal(c, dek, nonce, dekId, plaintext), plaintext, dek, false)])
    case ShredOp(tenant, dekId) => World(w.store - {(tenant, dekId)}, Mark(w.records, {(tenant, dekId)}))
    case EraseOp(tenant, consent, dekIds) =>
      if consent == Some("REVOKED")
      then World(w.store - ShredKeys(tenant, dekIds), Mark(w.records, ShredKeys(tenant, dekIds)))
      else w
  }

  predicate Run(c: Crypto, worlds: seq<World>, ops: seq<Op>) {
    && |worlds| == |ops| + 1 && worlds[0] == World(map[], [])
    && forall k :: 0 <= k < |ops| ==> Allowed(worlds[k], ops[k]) && worlds[k + 1] == Apply(c, worlds[k], ops[k])
  }

  function KeyOf(r: Record): (string, string) { (r.tenant, r.payload.dekId) }

  ghost predicate Inv(c: Crypto, w: World) {
    && (forall i :: 0 <= i < |w.records| ==>
          var r := w.records[i];
          && r.payload == Seal(c, r.dek, r.payload.iv, r.payload.dekId, r.plaintext)
          && (KeyOf(r) in w.store <==> !r.shredded)
          && (!r.shredded ==> w.store[KeyOf(r)] == (c.wrap(KekIdFor(r.tenant), r.dek), KekIdFor(r.tenant))))
    && (forall i, j :: 0 <= i < j < |w.records| ==> w.records[i].payload.dekId != w.records[j].payload.dekId)
    && (forall k :: k in w.store ==> exists i :: 0 <= i < |w.records| && KeyOf(w.records[i]) == k)
  }

  lemma RemoveKeepsInv(c: Crypto, w: World, gone: set<(string, string)>)
    requires Inv(c, w)
    ensures Inv(c, World(w.store - gone, Mark(w.records, gone)))
  {
    var t := World(w.store - gone, Mark(w.records, gone));
    forall k | k in t.store
      ensures exists i :: 0 <= i < |t.records| && KeyOf(t.records[i]) == k
    {
      var i :| 0 <= i < |w.records| && KeyOf(w.records[i]) == k;
      assert KeyOf(t.records[i]) == k;
    }
  }

  lemma EncryptKeepsInv(c: Crypto, w: World, op: Op)
    requires Inv(c, w) && op.EncryptOp? && Allowed(w, op)
    ensures Inv(c, Apply(c, w, op))
  {
    var t := Apply(c, w, op);
    forall k | k in t.store
      ensures exists i :: 0 <= i < |t.records| && KeyOf(t.records[i]) == k
    {
      if k == (op.tenant, op.dekId) {
        assert KeyOf(t.records[|w.records|]) == k;
      } else {
        var i :| 0 <= i < |w.records| && KeyOf(w.records[i]) == k;
        assert KeyOf(t.records[i]) == k;
      }
    }
  }

  lemma {:induction false} RunInv(c: Crypto, worlds: seq<World>, ops: seq<Op>, n: nat)
    requires Run(c, worlds, ops) && n < |worlds|
    ensures Inv(c, worlds[n])
  {
    if n > 0 {
      RunInv(c, worlds, ops, n - 1);
      match ops[n - 1]
      case EncryptOp(_, _, _, _, _) => EncryptKeepsInv(c, worlds[n - 1], ops[n - 1]);
      case ShredOp(tenant, dekId) => RemoveKeepsInv(c, worlds[n - 1], {(tenant, dekId)});
      case EraseOp(tenant, _, dekIds) => RemoveKeepsInv(c, worlds[n - 1], ShredKeys(tenant, dekIds));
    }
  }

  /** In every run: a record decrypts under its own tenant to its plaintext
      exactly while its key is unshredded, and under any other tenant never. */
  lemma DecryptsIffUnshredded(c: Crypto, worlds: seq<World>, ops: seq<Op>, n: nat, i: nat, tenant: string)
    requires c.Inverse() && Run(c, worlds, ops) && n < |worlds| && i < |worlds[n].records|
    ensures var r := worlds[n].records[i];
            Decrypted(c, worlds[n].store, r.payload, tenant)
            == if tenant == r.tenant && !r.shredded then Ok(r.plaintext) else Err(KeyNotFound)
  {
    RunInv(c, worlds, ops, n);
    var w := worlds[n];
    var r := w.records[i];
    assert forall j :: 0 <= j < |w.records| && j != i ==> w.records[j].payload.dekId != r.payload.dekId;
  }

  lemma KekIdsDiffer(a: string, b: string)
    ensures KekIdFor(a) == KekIdFor(b) <==> a == b
  {
    assert KekIdFor(a)[7..] == a && KekIdFor(b)[7..] == b;
  }

  /** In every run two stored keys are wrapped under the same KEK exactly when
      they belong to the same tenant. */
  lemma KekPerTenant(c: Crypto, worlds: seq<World>, ops: seq<Op>, n: nat, k: (string, string), l: (string, string))
    requires Run(c, worlds, ops) && n < |worlds| && k in worlds[n].store && l in worlds[n].store
    ensures worlds[n].store[k].1 == worlds[n].store[l].1 <==> k.0 == l.0
  {
    RunInv(c, worlds, ops, n);
    KekIdsDiffer(k.0, l.0);
  }

  /** What one operation did to the marks, it did to those records only, and a
      shredded record stays shredded for ever. */
  lemma {:induction false} ShreddedForever(c: Crypto, worlds: seq<World>, ops: seq<Op>, m: nat, n: nat, i: nat)
    requires Run(c, worlds, ops) && m <= n < |worlds| && i < |worlds[m].records|
    ensures i < |worlds[n].records| && worlds[n].records[i].(shredded := false) == worlds[m].records[i].(shredded := false)
    ensures var r := worlds[m].records[i];
            worlds[n].records[i].shredded <==>
              r.shredded || exists k :: m <= k < n && Shreds(ops[k], r.tenant, r.payload.dekId)
    decreases n - m
  {
    if m < n {
      ShreddedForever(c, worlds, ops, m, n - 1, i);
      var r := worlds[m].records[i];
      ShredsIff(c, worlds[n - 1], ops[n - 1], i);
      assert worlds[n] == Apply(c, worlds[n - 1], ops[n - 1]);
    }
  }

  // The operation names this record's key, with consent where consent is needed.
  predicate Shreds(op: Op, tenant: string, dekId: string) {
    match op
    case EncryptOp(_, _, _, _, _) => false
    case ShredOp(t, d) => t == tenant && d == dekId
    case EraseOp(t, consent, ds) => t == tenant && consent == Some("REVOKED") && dekId in ds
  }

  lemma ShredsIff(c: Crypto, w: World, op: Op, i: nat)
    requires i < |w.records|
    ensures i < |Apply(c, w, op).records|
    ensures var r := w.records[i];
            Apply(c, w, op).records[i] == r.(shredded := r.shredded || Shreds(op, r.tenant, r.payload.dekId))
  {
    if op.EraseOp? {
      var r := w.records[i];
      if r.payload.dekId in op.dekIds && op.tenant == r.tenant {
        var j :| 0 <= j < |op.dekIds| && op.dekIds[j] == r.payload.dekId;
        assert (op.tenant, op.dekIds[j]) in ShredKeys(op.tenant, op.dekIds);
      }
    }
  }
}
