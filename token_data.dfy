/** The persisted token records and the store primitives the token helper
    uses: `findOne` on an equality query (optionally with `expiresAt > t`),
    `updateOne` with `upsert`, `findByIdAndDelete` and `findByIdAndUpdate`.
    The store is a sequence in natural order; an upsert that inserts appends. */
module TokenData {
  import opened Values

  /** A `TokenData` document. `enterprise` is an ObjectId, here its hex text. */
  datatype TokenRecord = TokenRecord(
    id: nat,
    tokenType: string,
    email: Option<string>,
    phoneNumber: Option<string>,
    enterprise: Option<string>,
    tokenHash: string,
    triesLeft: Option<int>,
    expiresAt: int)

  /** `{type, email?, phoneNumber?, enterprise?}`: an absent field is not part
      of the query. */
  datatype Query = Query(
    tokenType: string,
    email: Option<string>,
    phoneNumber: Option<string>,
    enterprise: Option<string>)

  /** A record matches a query when it has every field the query has, with the
      same value. */
  predicate Matches(q: Query, r: TokenRecord) {
    && r.tokenType == q.tokenType
    && (q.email.Some? ==> r.email == q.email)
    && (q.phoneNumber.Some? ==> r.phoneNumber == q.phoneNumber)
    && (q.enterprise.Some? ==> r.enterprise == q.enterprise)
  }

  /** A query, optionally restricted to records with `expiresAt > t`. */
  datatype Filter = Filter(query: Query, expiresAfter: Option<int>)

  predicate Selects(f: Filter, r: TokenRecord) {
    Matches(f.query, r) && (f.expiresAfter.Some? ==> r.expiresAt > f.expiresAfter.value)
  }

  /** `findOne(filter)`: the position of the first record the filter selects. */
  function FindFirst(records: seq<TokenRecord>, f: Filter): (found: Option<nat>)
    ensures found.Some? ==> found.value < |records| && Selects(f, records[found.value])
    ensures found.Some? ==> forall j :: 0 <= j < found.value ==> !Selects(f, records[j])
    ensures found.None? ==> forall j :: 0 <= j < |records| ==> !Selects(f, records[j])
  {
    if records == [] then None
    else if Selects(f, records[0]) then Some(0)
    else match FindFirst(records[1..], f)
      case None => None
      case Some(j) => Some(j + 1)
  }

  /** `findOne` is determined by its two properties: the first selected position. */
  lemma {:induction false} FindFirstIs(records: seq<TokenRecord>, f: Filter, k: nat)
    requires k < |records| && Selects(f, records[k])
    requires forall j :: 0 <= j < k ==> !Selects(f, records[j])
    ensures FindFirst(records, f) == Some(k)
  {
    if k > 0 {
      FindFirstIs(records[1..], f, k - 1);
    }
  }

  /** The subject and type fields of a record, as the query that names exactly them. */
  function Key(r: TokenRecord): Query {
    Query(r.tokenType, r.email, r.phoneNumber, r.enterprise)
  }

  // ---------------------------------------------------------------------------
  // updateOne(filter, update, {upsert: true})

  /** The update document: the listed fields are set (`$set`); an absent
      optional field is left as it was. */
  datatype Update = Update(
    tokenType: string,
    email: Option<string>,
    phoneNumber: Option<string>,
    enterprise: Option<string>,
    tokenHash: string,
    triesLeft: Option<int>,
    expiresAt: int)

  function Apply(u: Update, r: TokenRecord): TokenRecord {
    r.(tokenType := u.tokenType,
       email := if u.email.Some? then u.email else r.email,
       phoneNumber := if u.phoneNumber.Some? then u.phoneNumber else r.phoneNumber,
       enterprise := if u.enterprise.Some? then u.enterprise else r.enterprise,
       tokenHash := u.tokenHash,
       triesLeft := if u.triesLeft.Some? then u.triesLeft else r.triesLeft,
       expiresAt := u.expiresAt)
  }

  /** The document an upsert inserts when nothing matched. */
  function Inserted(id: nat, u: Update): TokenRecord {
    TokenRecord(id, u.tokenType, u.email, u.phoneNumber, u.enterprise, u.tokenHash, u.triesLeft, u.expiresAt)
  }

  /** Where an upsert writes: the first selected record, or a new last one. */
  function WrittenAt(records: seq<TokenRecord>, f: Filter): nat {
    match FindFirst(records, f)
    case Some(i) => i
    case None => |records|
  }

  /** `updateOne(filter, update, {upsert: true})`, with the next free id. Exactly
      one record is written: the first one the filter selects, or else a new
      one appended with a fresh id. Every other record, in particular every one
      the filter does not select, is left as it was. */
  function Upsert(records: seq<TokenRecord>, nextId: nat, f: Filter, u: Update): (r: (seq<TokenRecord>, nat))
    ensures var k := WrittenAt(records, f);
      && k < |r.0|
      && |r.0| == (if k < |records| then |records| else |records| + 1)
      && (forall j :: 0 <= j < |records| && j != k ==> r.0[j] == records[j])
      && (forall j :: 0 <= j < |records| && !Selects(f, records[j]) ==> r.0[j] == records[j])
      && r.0[k].tokenHash == u.tokenHash && r.0[k].expiresAt == u.expiresAt
      && r.0[k].tokenType == u.tokenType
      && (u.triesLeft.Some? ==> r.0[k].triesLeft == u.triesLeft)
      && (k < |records| ==>
            && Selects(f, records[k]) && r.0[k].id == records[k].id && r.1 == nextId
            && (u.triesLeft.None? ==> r.0[k].triesLeft == records[k].triesLeft))
      && (k < |records| ==> r.0[k] == Apply(u, records[k]))
      && (k == |records| ==> r.0[k] == Inserted(nextId, u) && r.1 == nextId + 1)
  {
    match FindFirst(records, f)
    case Some(i) => (records[i := Apply(u, records[i])], nextId)
    case None => (records + [Inserted(nextId, u)], nextId + 1)
  }

  // ---------------------------------------------------------------------------
  // findByIdAndDelete / findByIdAndUpdate

  /** `findByIdAndDelete(id)`: every record but the one with that id, in order. */
  function RemoveId(records: seq<TokenRecord>, id: nat): (r: seq<TokenRecord>)
    ensures |r| <= |records|
    ensures forall j :: 0 <= j < |r| ==> r[j].id != id
  {
    if records == [] then []
    else (if records[0].id == id then [] else [records[0]]) + RemoveId(records[1..], id)
  }

  /** Exactly the records with another id remain. */
  lemma {:induction false} RemoveIdMembers(records: seq<TokenRecord>, id: nat)
    ensures forall x :: x in RemoveId(records, id) <==> x in records && x.id != id
  {
    if records != [] {
      RemoveIdMembers(records[1..], id);
      assert records == [records[0]] + records[1..];
    }
  }

  /** `findByIdAndUpdate(id, {triesLeft: n})`. */
  function SetTries(records: seq<TokenRecord>, id: nat, n: int): (r: seq<TokenRecord>)
    ensures |r| == |records|
    ensures forall j :: 0 <= j < |r| ==> r[j] == if records[j].id == id then records[j].(triesLeft := Some(n)) else records[j]
  {
    seq(|records|, j requires 0 <= j < |records| =>
      if records[j].id == id then records[j].(triesLeft := Some(n)) else records[j])
  }

  /** The document the TTL index removes in the background: one whose
      `expiresAt` has passed. */
  function Reaped(records: seq<TokenRecord>, now: int): (r: seq<TokenRecord>)
    ensures forall x :: x in r <==> x in records && x.expiresAt >= now
  {
    if records == [] then []
    else (if records[0].expiresAt >= now then [records[0]] else []) + Reaped(records[1..], now)
  }

  // ---------------------------------------------------------------------------
  // Identity of records

  predicate UniqueIds(records: seq<TokenRecord>) {
    forall i, j :: 0 <= i < j < |records| ==> records[i].id != records[j].id
  }

  predicate IdsBelow(records: seq<TokenRecord>, bound: nat) {
    forall i :: 0 <= i < |records| ==> records[i].id < bound
  }

  /** With distinct ids, deleting by the id found at position i removes exactly
      that position. */
  lemma {:induction false} RemoveIdAt(records: seq<TokenRecord>, i: nat)
    requires UniqueIds(records) && i < |records|
    ensures RemoveId(records, records[i].id) == records[..i] + records[i + 1..]
  {
    var id := records[i].id;
    var tail := records[1..];
    assert UniqueIds(tail) by {
      forall a, b | 0 <= a < b < |tail| ensures tail[a].id != tail[b].id {
        assert tail[a] == records[a + 1] && tail[b] == records[b + 1];
      }
    }
    if i == 0 {
      assert RemoveId(tail, id) == tail by {
        assert forall j :: 0 <= j < |tail| ==> tail[j].id == records[j + 1].id;
        NoOtherHasId(tail, id);
      }
      assert RemoveId(records, id) == [] + RemoveId(tail, id);
      assert records[..0] + records[1..] == tail;
    } else {
      assert RemoveId(records, id) == [records[0]] + RemoveId(tail, id);
      assert RemoveId(tail, id) == tail[..i - 1] + tail[i..] by {
        RemoveIdAt(tail, i - 1);
      }
      assert records[..i] + records[i + 1..] == [records[0]] + (tail[..i - 1] + tail[i..]) by {
        assert tail[..i - 1] == records[1..i];
        assert records[..i] == [records[0]] + records[1..i];
        assert tail[i..] == records[i + 1..];
      }
    }
  }

  /** With distinct ids, updating by the id found at position i edits exactly
      that position. */
  lemma SetTriesAt(records: seq<TokenRecord>, i: nat, n: int)
    requires UniqueIds(records) && i < |records|
    ensures SetTries(records, records[i].id, n) == records[i := records[i].(triesLeft := Some(n))]
  {
  }

  lemma {:induction false} NoOtherHasId(records: seq<TokenRecord>, id: nat)
    requires forall j :: 0 <= j < |records| ==> records[j].id != id
    ensures RemoveId(records, id) == records
  {
    if records != [] {
      NoOtherHasId(records[1..], id);
    }
  }

  lemma {:induction false} RemoveIdKeepsIds(records: seq<TokenRecord>, id: nat, bound: nat)
    requires UniqueIds(records) && IdsBelow(records, bound)
    ensures UniqueIds(RemoveId(records, id)) && IdsBelow(RemoveId(records, id), bound)
  {
    if records != [] {
      RemoveIdKeepsIds(records[1..], id, bound);
      RemoveIdMembers(records[1..], id);
      var rest := RemoveId(records[1..], id);
      var r := RemoveId(records, id);
      if records[0].id != id {
        assert r == [records[0]] + rest;
        forall j | 0 < j < |r| ensures r[j].id != records[0].id {
          assert r[j] == rest[j - 1];
          assert rest[j - 1] in records[1..];
        }
      } else {
        assert r == rest;
      }
    }
  }

  lemma UpsertKeepsIds(records: seq<TokenRecord>, nextId: nat, f: Filter, u: Update)
    requires UniqueIds(records) && IdsBelow(records, nextId)
    ensures var r := Upsert(records, nextId, f, u); UniqueIds(r.0) && IdsBelow(r.0, r.1)
  {
  }

  lemma SetTriesKeepsIds(records: seq<TokenRecord>, id: nat, n: int, bound: nat)
    requires UniqueIds(records) && IdsBelow(records, bound)
    ensures UniqueIds(SetTries(records, id, n)) && IdsBelow(SetTries(records, id, n), bound)
  {
  }

  lemma {:induction false} ReapedKeepsIds(records: seq<TokenRecord>, now: int, bound: nat)
    requires UniqueIds(records) && IdsBelow(records, bound)
    ensures UniqueIds(Reaped(records, now)) && IdsBelow(Reaped(records, now), bound)
  {
    if records != [] {
      ReapedKeepsIds(records[1..], now, bound);
      var rest := Reaped(records[1..], now);
      var r := Reaped(records, now);
      if records[0].expiresAt >= now {
        assert r == [records[0]] + rest;
        forall j | 0 < j < |r| ensures r[j].id != records[0].id {
          assert r[j] == rest[j - 1];
          assert rest[j - 1] in records[1..];
        }
      } else {
        assert r == rest;
      }
    }
  }

  // ---------------------------------------------------------------------------
  // At most one live record per (type, subject)

  /** No two distinct records that are both still live at `now` carry the same
      type and subject fields. */
  predicate LiveKeysUnique(records: seq<TokenRecord>, now: int) {
    forall a, b :: a in records && b in records && a.id != b.id && a.expiresAt > now && b.expiresAt > now
      ==> Key(a) != Key(b)
  }

  /** The upsert against `{query, expiresAt > now}` keeps live keys unique when
      the update sets exactly the query's fields. */
  lemma UpsertKeepsLiveKeysUnique(records: seq<TokenRecord>, nextId: nat, q: Query, u: Update, now: int)
    requires UniqueIds(records) && IdsBelow(records, nextId)
    requires LiveKeysUnique(records, now)
    requires Key(Inserted(nextId, u)) == q
    ensures LiveKeysUnique(Upsert(records, nextId, Filter(q, Some(now)), u).0, now)
  {
    var f := Filter(q, Some(now));
    var after := Upsert(records, nextId, f, u).0;
    match FindFirst(records, f)
    case Some(i) =>
      assert after == records[i := Apply(u, records[i])];
      assert Key(after[i]) == Key(records[i]);
      forall a, b | a in after && b in after && a.id != b.id && a.expiresAt > now && b.expiresAt > now
        ensures Key(a) != Key(b)
      {
        var a0 := if a == after[i] then records[i] else a;
        var b0 := if b == after[i] then records[i] else b;
        assert a0 in records && b0 in records;
        assert a0.id == a.id && b0.id == b.id;
        assert Key(a0) == Key(a) && Key(b0) == Key(b);
        assert a0.expiresAt > now && b0.expiresAt > now;
      }
    case None =>
      var n := Inserted(nextId, u);
      assert after == records + [n];
      forall a | a in records && a.expiresAt > now
        ensures Key(a) != q
      {
        var j :| 0 <= j < |records| && records[j] == a;
        assert !Selects(f, records[j]);
      }
  }

  /** Deleting records keeps live keys unique. */
  lemma RemoveIdKeepsLiveKeysUnique(records: seq<TokenRecord>, id: nat, now: int)
    requires LiveKeysUnique(records, now)
    ensures LiveKeysUnique(RemoveId(records, id), now)
  {
    RemoveIdMembers(records, id);
  }

  /** Changing the tries of a record keeps live keys unique. */
  lemma SetTriesKeepsLiveKeysUnique(records: seq<TokenRecord>, id: nat, n: int, now: int)
    requires LiveKeysUnique(records, now)
    ensures LiveKeysUnique(SetTries(records, id, n), now)
  {
    var after := SetTries(records, id, n);
    forall a, b | a in after && b in after && a.id != b.id && a.expiresAt > now && b.expiresAt > now
      ensures Key(a) != Key(b)
    {
      var i :| 0 <= i < |after| && after[i] == a;
      var j :| 0 <= j < |after| && after[j] == b;
      assert records[i] in records && records[j] in records;
    }
  }
}
