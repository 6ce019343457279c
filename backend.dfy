/** The in-memory stores of the HTTP back end (backend/app/main.py): the list of
    generations, the gallery list, and the websocket connection list. Record ids
    (`uuid4`) and timestamps (`datetime.now().isoformat()`) are inputs. */
module Backend {
  import opened Common

  /** The Python exceptions the handlers can raise. */
  datatype PyError = NameError(name: string) | ValueError(message: string)

  datatype Result<T> = Ok(value: T) | Err(error: PyError)

  /** The JSON body of a save request; `None` is a key the body does not have. */
  datatype SaveRequest = SaveRequest(
    userId: Option<string>,
    sketchData: Option<string>,
    imageData: Option<string>,
    prompt: Option<string>)

  datatype Generation = Generation(
    id: string,
    userId: string,
    sketchData: Option<string>,
    imageData: Option<string>,
    prompt: Option<string>,
    createdAt: string)

  datatype GalleryRecord = GalleryRecord(
    id: string,
    sketchData: Option<string>,
    imageData: Option<string>,
    prompt: Option<string>,
    createdAt: string)

  datatype SaveResponse = SaveResponse(status: string, id: string)
  datatype GenerationsResponse = GenerationsResponse(generations: seq<Generation>, count: nat)
  datatype GalleryResponse = GalleryResponse(items: seq<GalleryRecord>, count: nat)

  const Guest: string := "guest"
  const Success: string := "success"
  const Deleted: string := "deleted"

  /** The name of the module-level gallery list, which nothing binds. */
  const GalleryName: string := "gallery_storage"

  function GenerationId(g: Generation): string { g.id }
  function GenerationUser(g: Generation): string { g.userId }
  function RecordId(r: GalleryRecord): string { r.id }
  function RecordCreatedAt(r: GalleryRecord): string { r.createdAt }

  /** The record `save_generation` builds; the owner defaults to "guest". */
  function NewGeneration(data: SaveRequest, newId: string, now: string): (g: Generation)
    ensures g.id == newId && g.createdAt == now && g.prompt == data.prompt
    ensures g.sketchData == data.sketchData && g.imageData == data.imageData
    ensures data.userId.None? ==> g.userId == Guest
    ensures data.userId.Some? ==> g.userId == data.userId.value
  {
    Generation(newId, GetOr(data.userId, Guest), data.sketchData, data.imageData, data.prompt, now)
  }

  /** The record `save_to_gallery` builds; a user id in the body is ignored. */
  function NewRecord(data: SaveRequest, newId: string, now: string): GalleryRecord
  {
    GalleryRecord(newId, data.sketchData, data.imageData, data.prompt, now)
  }

  /** `get_generations`: the generations of the queried user ("guest" by default), in store order. */
  function ListGenerations(store: seq<Generation>, userId: Option<string>): (r: GenerationsResponse)
    ensures forall g :: g in r.generations <==> g in store && g.userId == GetOr(userId, Guest)
    ensures r.count == |r.generations|
  {
    var gs := Matching(store, GenerationUser, GetOr(userId, Guest));
    GenerationsResponse(gs, |gs|)
  }

  // ---------------------------------------------------------------------------
  // Python's string order, used by `sorted(..., key=created_at)`

  /** Lexicographic order on code points, a proper prefix first. */
  predicate StrLe(a: string, b: string)
    decreases |a|
  {
    if a == [] then true
    else if b == [] then false
    else if a[0] != b[0] then a[0] < b[0]
    else StrLe(a[1..], b[1..])
  }

  lemma {:induction false} StrLeReflexive(a: string)
    ensures StrLe(a, a)
    decreases |a|
  {
    if a != [] {
      StrLeReflexive(a[1..]);
    }
  }

  lemma {:induction false} StrLeTotal(a: string, b: string)
    ensures StrLe(a, b) || StrLe(b, a)
    decreases |a|
  {
    if a != [] && b != [] && a[0] == b[0] {
      StrLeTotal(a[1..], b[1..]);
    }
  }

  lemma {:induction false} StrLeTransitive(a: string, b: string, c: string)
    requires StrLe(a, b) && StrLe(b, c)
    ensures StrLe(a, c)
    decreases |a|
  {
    if a != [] && b != [] && c != [] && a[0] == b[0] && b[0] == c[0] {
      StrLeTransitive(a[1..], b[1..], c[1..]);
    }
  }

  lemma {:induction false} StrLeAntisymmetric(a: string, b: string)
    requires StrLe(a, b) && StrLe(b, a)
    ensures a == b
    decreases |a|
  {
    if a != [] {
      StrLeAntisymmetric(a[1..], b[1..]);
      assert a == [a[0]] + a[1..] && b == [b[0]] + b[1..];
    }
  }

  // ---------------------------------------------------------------------------
  // `sorted(items, key=created_at, reverse=True)`: newest first, stable on ties

  predicate NewestFirst(s: seq<GalleryRecord>)
  {
    forall i, j :: 0 <= i < j < |s| ==> StrLe(s[j].createdAt, s[i].createdAt)
  }

  /** Place x after every strictly newer record and before the first one not newer. */
  function InsertNewestFirst(x: GalleryRecord, r: seq<GalleryRecord>): (q: seq<GalleryRecord>)
    ensures |q| == |r| + 1
    ensures multiset(q) == multiset(r) + multiset{x}
  {
    if r == [] || StrLe(r[0].createdAt, x.createdAt) then [x] + r
    else
      assert r == [r[0]] + r[1..];
      [r[0]] + InsertNewestFirst(x, r[1..])
  }

  function SortNewestFirst(s: seq<GalleryRecord>): (r: seq<GalleryRecord>)
    ensures |r| == |s|
    ensures multiset(r) == multiset(s)
  {
    if s == [] then []
    else
      assert s == [s[0]] + s[1..];
      InsertNewestFirst(s[0], SortNewestFirst(s[1..]))
  }

  lemma {:induction false} InsertKeepsNewestFirst(x: GalleryRecord, r: seq<GalleryRecord>)
    requires NewestFirst(r)
    ensures NewestFirst(InsertNewestFirst(x, r))
    decreases |r|
  {
    if r == [] {
    } else if StrLe(r[0].createdAt, x.createdAt) {
      var q := [x] + r;
      forall i, j | 0 <= i < j < |q|
        ensures StrLe(q[j].createdAt, q[i].createdAt)
      {
        if i == 0 {
          if j > 1 {
            StrLeTransitive(r[j - 1].createdAt, r[0].createdAt, x.createdAt);
          }
        }
      }
    } else {
      StrLeTotal(r[0].createdAt, x.createdAt);
      var rest := InsertNewestFirst(x, r[1..]);
      InsertKeepsNewestFirst(x, r[1..]);
      var q := [r[0]] + rest;
      forall k | 0 <= k < |rest|
        ensures StrLe(rest[k].createdAt, r[0].createdAt)
      {
        assert rest[k] in multiset(rest);
        if rest[k] != x {
          assert rest[k] in multiset(r[1..]);
          var m :| 0 <= m < |r[1..]| && r[1..][m] == rest[k];
          assert r[m + 1] == rest[k];
        }
      }
      forall i, j | 0 <= i < j < |q|
        ensures StrLe(q[j].createdAt, q[i].createdAt)
      {
        if i == 0 {
          assert q[j] == rest[j - 1];
        } else {
          assert q[i] == rest[i - 1] && q[j] == rest[j - 1];
        }
      }
    }
  }

  lemma MatchingOne(a: GalleryRecord, t: string)
    ensures Matching([a], RecordCreatedAt, t) == if a.createdAt == t then [a] else []
  {
    assert [a][1..] == [];
  }

  /** Only the creation time decides the place: among records created at the same
      instant, insertion keeps x ahead of the ones it was ahead of. */
  lemma {:induction false} InsertIsStable(x: GalleryRecord, r: seq<GalleryRecord>, t: string)
    ensures Matching(InsertNewestFirst(x, r), RecordCreatedAt, t) == Matching([x] + r, RecordCreatedAt, t)
    decreases |r|
  {
    if r != [] && !StrLe(r[0].createdAt, x.createdAt) {
      var y, rest := r[0], r[1..];
      var ins := InsertNewestFirst(x, rest);
      assert InsertNewestFirst(x, r) == [y] + ins;
      assert r == [y] + rest;
      StrLeReflexive(x.createdAt);
      MatchingOne(x, t);
      MatchingOne(y, t);
      var mx, my := Matching([x], RecordCreatedAt, t), Matching([y], RecordCreatedAt, t);
      var mrest := Matching(rest, RecordCreatedAt, t);
      assert my + (mx + mrest) == mx + (my + mrest) by {
        assert mx == [] || my == [];
      }
      calc {
        Matching([y] + ins, RecordCreatedAt, t);
        == { MatchingConcat([y], ins, RecordCreatedAt, t); }
        my + Matching(ins, RecordCreatedAt, t);
        == { InsertIsStable(x, rest, t); MatchingConcat([x], rest, RecordCreatedAt, t); }
        my + (mx + mrest);
        mx + (my + mrest);
        == { MatchingConcat([y], rest, RecordCreatedAt, t); }
        mx + Matching(r, RecordCreatedAt, t);
        == { MatchingConcat([x], r, RecordCreatedAt, t); }
        Matching([x] + r, RecordCreatedAt, t);
      }
    }
  }

  /** The gallery listing is newest first. */
  lemma {:induction false} SortIsNewestFirst(s: seq<GalleryRecord>)
    ensures NewestFirst(SortNewestFirst(s))
    decreases |s|
  {
    if s != [] {
      SortIsNewestFirst(s[1..]);
      InsertKeepsNewestFirst(s[0], SortNewestFirst(s[1..]));
    }
  }

  /** The sort is stable: the records created at any one instant come out in store order. */
  lemma {:induction false} SortIsStable(s: seq<GalleryRecord>, t: string)
    ensures Matching(SortNewestFirst(s), RecordCreatedAt, t) == Matching(s, RecordCreatedAt, t)
    decreases |s|
  {
    if s != [] {
      var sorted := SortNewestFirst(s[1..]);
      InsertIsStable(s[0], sorted, t);
      SortIsStable(s[1..], t);
      MatchingConcat([s[0]], sorted, RecordCreatedAt, t);
      MatchingConcat([s[0]], s[1..], RecordCreatedAt, t);
      assert s == [s[0]] + s[1..];
    }
  }

  /** `get_gallery` over a bound list: every record, newest first, and the total count. */
  function ListGallery(gallery: Option<seq<GalleryRecord>>): (r: Result<GalleryResponse>)
    ensures gallery.None? <==> r == Err(NameError(GalleryName))
    ensures gallery.Some? ==>
      r.Ok? && multiset(r.value.items) == multiset(gallery.value) && r.value.count == |gallery.value|
  {
    match gallery
    case None => Err(NameError(GalleryName))
    case Some(items) => Ok(GalleryResponse(SortNewestFirst(items), |items|))
  }

  lemma GalleryListingIsSortedAndStable(items: seq<GalleryRecord>, t: string)
    ensures var r := ListGallery(Some(items));
      && r.Ok?
      && NewestFirst(r.value.items)
      && Matching(r.value.items, RecordCreatedAt, t) == Matching(items, RecordCreatedAt, t)
      && r.value.count == |r.value.items|
  {
    SortIsNewestFirst(items);
    SortIsStable(items, t);
  }

  // ---------------------------------------------------------------------------
  // Properties of the generations store

  /** Listing after a save: the new record shows up last for its owner and nowhere else. */
  lemma SaveThenList(store: seq<Generation>, data: SaveRequest, newId: string, now: string, q: Option<string>)
    ensures var g := NewGeneration(data, newId, now);
      ListGenerations(store + [g], q).generations ==
        ListGenerations(store, q).generations + (if g.userId == GetOr(q, Guest) then [g] else [])
  {
    var g := NewGeneration(data, newId, now);
    MatchingConcat(store, [g], GenerationUser, GetOr(q, Guest));
    assert [g][1..] == [];
  }

  /** Listing keeps store order: the listing of a concatenation is the concatenation of listings. */
  lemma ListingKeepsOrder(a: seq<Generation>, b: seq<Generation>, q: Option<string>)
    ensures ListGenerations(a + b, q).generations ==
      ListGenerations(a, q).generations + ListGenerations(b, q).generations
  {
    MatchingConcat(a, b, GenerationUser, GetOr(q, Guest));
  }

  /** Deleting a generation: the others stay in order, repeating is harmless, and an
      id that is not there changes nothing. */
  lemma DeleteGenerationProperties(store: seq<Generation>, id: string)
    ensures forall g :: g in Without(store, GenerationId, id) <==> g in store && g.id != id
    ensures Without(Without(store, GenerationId, id), GenerationId, id) == Without(store, GenerationId, id)
    ensures (forall g :: g in store ==> g.id != id) ==> Without(store, GenerationId, id) == store
  {
    WithoutIdempotent(store, GenerationId, id);
    if forall g :: g in store ==> g.id != id {
      WithoutAbsent(store, GenerationId, id);
    }
  }

  /** Deleting the record just saved under a fresh id restores the store. */
  lemma {:induction false} DeleteUndoesSave(store: seq<Generation>, data: SaveRequest, newId: string, now: string)
    requires forall g :: g in store ==> g.id != newId
    ensures Without(store + [NewGeneration(data, newId, now)], GenerationId, newId) == store
  {
    var g := NewGeneration(data, newId, now);
    WithoutConcat(store, [g], GenerationId, newId);
    WithoutAbsent(store, GenerationId, newId);
    assert [g][1..] == [];
  }

  // ---------------------------------------------------------------------------
  // The module-level lists and their handlers

  class Server {
    var generations: seq<Generation>
    /** `None`: the module never binds `gallery_storage`, so every read raises NameError. */
    var gallery: Option<seq<GalleryRecord>>

    /** Module import as written: only `generations_storage` is bound. */
    constructor ()
      ensures generations == [] && gallery == None
    {
      generations := [];
      gallery := None;
    }

    /** Module import as evidently intended, with `gallery_storage = []` beside it. */
    constructor WithEmptyGallery()
      ensures generations == [] && gallery == Some([])
    {
      generations := [];
      gallery := Some([]);
    }

    method SaveGeneration(data: SaveRequest, newId: string, now: string) returns (r: SaveResponse)
      modifies this
      ensures generations == old(generations) + [NewGeneration(data, newId, now)]
      ensures gallery == old(gallery)
      ensures r == SaveResponse(Success, newId)
    {
      var generation := NewGeneration(data, newId, now);
      generations := generations + [generation];
      r := SaveResponse(Success, generation.id);
    }

    method GetGenerations(userId: Option<string>) returns (r: GenerationsResponse)
      ensures r == ListGenerations(generations, userId)
    {
      var gs := Matching(generations, GenerationUser, GetOr(userId, Guest));
      r := GenerationsResponse(gs, |gs|);
    }

    method DeleteGeneration(id: string) returns (status: string)
      modifies this
      ensures generations == Without(old(generations), GenerationId, id)
      ensures gallery == old(gallery)
      ensures status == Deleted
    {
      generations := Without(generations, GenerationId, id);
      status := Deleted;
    }

    method SaveToGallery(data: SaveRequest, newId: string, now: string) returns (r: Result<SaveResponse>)
      modifies this
      ensures old(gallery).None? ==> r == Err(NameError(GalleryName)) && gallery == None
      ensures old(gallery).Some? ==>
        && r == Ok(SaveResponse(Success, newId))
        && gallery == Some(old(gallery).value + [NewRecord(data, newId, now)])
      ensures generations == old(generations)
    {
      var item := NewRecord(data, newId, now);
      if gallery.None? {
        return Err(NameError(GalleryName));
      }
      gallery := Some(gallery.value + [item]);
      r := Ok(SaveResponse(Success, item.id));
    }

    method GetGallery() returns (r: Result<GalleryResponse>)
      ensures r == ListGallery(gallery)
    {
      if gallery.None? {
        return Err(NameError(GalleryName));
      }
      r := Ok(GalleryResponse(SortNewestFirst(gallery.value), |gallery.value|));
    }

    method DeleteFromGallery(id: string) returns (r: Result<string>)
      modifies this
      ensures old(gallery).None? ==> r == Err(NameError(GalleryName)) && gallery == None
      ensures old(gallery).Some? ==>
        r == Ok(Deleted) && gallery == Some(Without(old(gallery).value, RecordId, id))
      ensures generations == old(generations)
    {
      if gallery.None? {
        return Err(NameError(GalleryName));
      }
      gallery := Some(Without(gallery.value, RecordId, id));
      r := Ok(Deleted);
    }
  }

  /** As written: right after start-up, saving to the gallery raises NameError,
      and so does every later gallery request, since the failed save binds nothing. */
  method UnboundGalleryScenario(data: SaveRequest, newId: string, now: string)
    returns (saved: Result<SaveResponse>, listed: Result<GalleryResponse>, deleted: Result<string>)
    ensures saved == Err(NameError(GalleryName))
    ensures listed == Err(NameError(GalleryName))
    ensures deleted == Err(NameError(GalleryName))
  {
    var server := new Server();
    saved := server.SaveToGallery(data, newId, now);
    listed := server.GetGallery();
    deleted := server.DeleteFromGallery(newId);
  }

  /** As intended: with the list bound, a save is listed, and deleting it empties the gallery. */
  method EmptyGalleryScenario(data: SaveRequest, newId: string, now: string)
    returns (saved: Result<SaveResponse>, listed: Result<GalleryResponse>, after: Result<GalleryResponse>)
    ensures saved == Ok(SaveResponse(Success, newId))
    ensures listed == Ok(GalleryResponse([NewRecord(data, newId, now)], 1))
    ensures after == Ok(GalleryResponse([], 0))
  {
    var server := new Server.WithEmptyGallery();
    saved := server.SaveToGallery(data, newId, now);
    var record := NewRecord(data, newId, now);
    assert [] + [record] == [record];
    assert SortNewestFirst([record]) == [record] by {
      assert [record][1..] == [];
    }
    listed := server.GetGallery();
    assert Without([record], RecordId, newId) == [] by {
      assert [record][1..] == [];
    }
    var _ := server.DeleteFromGallery(newId);
    after := server.GetGallery();
  }

  // ---------------------------------------------------------------------------
  // `ConnectionManager`: websockets are identified by a number

  type Socket = nat

  /** Where `list.remove(x)` finds x: its first occurrence. */
  function FirstIndex(s: seq<Socket>, x: Socket): (i: nat)
    requires x in s
    ensures i < |s| && s[i] == x && x !in s[..i]
  {
    if s[0] == x then 0
    else
      var j := FirstIndex(s[1..], x);
      assert s[..j + 1] == [s[0]] + s[1..][..j];
      j + 1
  }

  /** `list.remove(x)`: drop the first occurrence of x, keep the rest in order. */
  function RemoveFirst(s: seq<Socket>, x: Socket): (r: seq<Socket>)
    requires x in s
    ensures |r| == |s| - 1
    ensures multiset(r) == multiset(s) - multiset{x}
  {
    var i := FirstIndex(s, x);
    assert s == s[..i] + [s[i]] + s[i + 1..];
    s[..i] + s[i + 1..]
  }

  /** A socket connected once and then disconnected leaves the list as it was;
      with an earlier connection of the same socket the earlier entry goes instead. */
  lemma DisconnectUndoesConnect(s: seq<Socket>, ws: Socket)
    ensures ws !in s ==> RemoveFirst(s + [ws], ws) == s
    ensures ws in s ==> RemoveFirst(s + [ws], ws) == RemoveFirst(s, ws) + [ws]
  {
    var t := s + [ws];
    var i := FirstIndex(t, ws);
    if ws !in s {
      assert t[..|s|] == s;
    } else {
      var j := FirstIndex(s, ws);
      assert t[..j] == s[..j];
      assert i == j;
      var tail := s[j + 1..] + [ws];
      assert |t[j + 1..]| == |tail|;
      forall k | 0 <= k < |tail|
        ensures t[j + 1..][k] == tail[k]
      {
        if k < |s| - j - 1 {
          assert t[j + 1..][k] == t[j + 1 + k] == s[j + 1 + k];
        }
      }
      assert t[j + 1..] == tail;
    }
  }

  datatype Outcome = Done | Raised(error: PyError)

  class ConnectionManager {
    var activeConnections: seq<Socket>

    constructor ()
      ensures activeConnections == []
    {
      activeConnections := [];
    }

    /** After the handshake (not modelled) the socket is appended. */
    method Connect(ws: Socket)
      modifies this
      ensures activeConnections == old(activeConnections) + [ws]
    {
      activeConnections := activeConnections + [ws];
    }

    /** Removes the first occurrence; a socket that is not there raises ValueError. */
    method Disconnect(ws: Socket) returns (r: Outcome)
      modifies this
      ensures ws in old(activeConnections) ==>
        r == Done && activeConnections == RemoveFirst(old(activeConnections), ws)
      ensures ws !in old(activeConnections) ==>
        r.Raised? && r.error.ValueError? && activeConnections == old(activeConnections)
    {
      if ws !in activeConnections {
        return Raised(ValueError("list.remove(x): x not in list"));
      }
      activeConnections := RemoveFirst(activeConnections, ws);
      r := Done;
    }
  }
}
