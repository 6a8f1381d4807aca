/**
 * The pings route: `POST` stores one ping for the authenticated caller, and
 * `GET` lists the pings the caller may see (all of them for a handler, their
 * own otherwise), newest first by creation time.
 */
module PingsRoute {

  import opened Options
  import opened Crypto
  import opened AuthRoute

  /**
   * A stored ping (the Ping schema). `timestamp` is the server's ISO time at
   * acceptance; `createdAt` is the creation time the database adds.
   */
  datatype Ping = Ping(
    id: string,
    userId: string,
    lat: string,
    lng: string,
    message: string,
    timestamp: string,
    parentId: Option<string>,
    createdAt: int)

  /** The JSON body of `POST`; any field may be missing. There is no timestamp or owner field. */
  datatype PingBody = PingBody(lat: Option<string>, lng: Option<string>, message: Option<string>, parentId: Option<string>)

  datatype Reply =
    | Unauthorized             // 401 { message: 'Unauthorized' }
    | ServerError              // 500: the insert threw
    | Created(ping: Ping)      // 200 { success: true, ping }
    | Listed(pings: seq<Ping>) // 200 { success: true, pings }
  {
    function Status(): int {
      match this
      case Unauthorized => 401
      case ServerError => 500
      case _ => 200
    }
  }

  /** `parentId || null`: a missing or empty parent id is stored as null, any other is kept. */
  function NormalizeParent(parentId: Option<string>): (r: Option<string>)
    ensures r == None <==> parentId == None || parentId == Some("")
    ensures r != None ==> r == parentId
  {
    if parentId.Some? && parentId.value != "" then parentId else None
  }

  /** A String path declared `required: true` rejects a missing value and the empty string. */
  predicate Required(v: Option<string>): (ok: bool)
    ensures ok <==> v != None && v != Some("")
  {
    v.Some? && v.value != ""
  }

  /** The body passes the schema's required checks on lat, lng and message. */
  predicate Storable(body: PingBody): (ok: bool)
    ensures !ok <==> exists f :: f in [body.lat, body.lng, body.message] && (f == None || f == Some(""))
  {
    assert body.lat in [body.lat, body.lng, body.message];
    assert body.lng in [body.lat, body.lng, body.message];
    assert body.message in [body.lat, body.lng, body.message];
    Required(body.lat) && Required(body.lng) && Required(body.message)
  }

  /** The record `POST` inserts for caller `who`, at server time `now`. */
  function NewPing(who: Identity, body: PingBody, now: string, createdAt: int, newId: string): (p: Ping)
    requires Storable(body)
    ensures p.id == newId && p.userId == who.id
    ensures Some(p.lat) == body.lat && Some(p.lng) == body.lng && Some(p.message) == body.message
    ensures p.timestamp == now && p.createdAt == createdAt
    ensures p.parentId == NormalizeParent(body.parentId)
  {
    Ping(newId, who.id, body.lat.value, body.lng.value, body.message.value, now, NormalizeParent(body.parentId), createdAt)
  }

  /** No two stored pings share an id. */
  ghost predicate DistinctIds(pings: seq<Ping>) {
    forall i, j :: 0 <= i < j < |pings| ==> pings[i].id != pings[j].id
  }

  /** The ping collection, in insertion order. */
  class PingStore {

    var pings: seq<Ping>

    ghost predicate Valid()
      reads this
    {
      DistinctIds(pings)
    }

    constructor ()
      ensures Valid() && pings == []
    {
      pings := [];
    }

    /**
     * `POST`, with `auth` the outcome of `verifyJWT`, `now` the server clock
     * and `createdAt`, `newId` what the database assigns. Without an identity
     * nothing is stored; a body the schema rejects makes the insert throw;
     * otherwise exactly one ping is appended.
     */
    method Create(auth: Option<Identity>, body: PingBody, now: string, createdAt: int, newId: string) returns (r: Reply)
      requires Valid()
      requires forall p :: p in pings ==> p.id != newId
      modifies this
      ensures Valid()
      ensures auth == None ==> r == Unauthorized && pings == old(pings)
      ensures auth != None && !Storable(body) ==> r == ServerError && pings == old(pings)
      ensures auth != None && Storable(body) ==>
        && r == Created(NewPing(auth.value, body, now, createdAt, newId))
        && pings == old(pings) + [r.ping]
    {
      if auth == None {
        return Unauthorized;
      }
      if !Storable(body) {
        return ServerError;
      }
      var p := NewPing(auth.value, body, now, createdAt, newId);
      pings := pings + [p];
      r := Created(p);
    }
  }

  /** Newest first: `createdAt` never increases along the list. */
  ghost predicate NewestFirst(s: seq<Ping>) {
    forall i, j :: 0 <= i < j < |s| ==> s[i].createdAt >= s[j].createdAt
  }

  /** Inserts `p` into a newest-first list ahead of every ping no newer than it. */
  function InsertNewestFirst(p: Ping, s: seq<Ping>): (r: seq<Ping>)
    requires NewestFirst(s)
    ensures NewestFirst(r)
    ensures multiset(r) == multiset(s) + multiset{p}
    ensures r != [] && (r[0] == p || (s != [] && r[0] == s[0]))
  {
    if s == [] || p.createdAt >= s[0].createdAt then
      [p] + s
    else
      var rest := InsertNewestFirst(p, s[1..]);
      assert s == [s[0]] + s[1..];
      [s[0]] + rest
  }

  /** `.sort({ createdAt: -1 })`. */
  function SortNewestFirst(s: seq<Ping>): (r: seq<Ping>)
    ensures NewestFirst(r)
    ensures multiset(r) == multiset(s)
  {
    if s == [] then []
    else
      assert s == [s[0]] + s[1..];
      InsertNewestFirst(s[0], SortNewestFirst(s[1..]))
  }

  /** `Ping.find({ userId })`: the pings owned by `userId`, each as often as it is stored. */
  function OwnedBy(pings: seq<Ping>, userId: string): (r: seq<Ping>)
    ensures forall p :: multiset(r)[p] == if p.userId == userId then multiset(pings)[p] else 0
  {
    if pings == [] then []
    else
      assert pings == [pings[0]] + pings[1..];
      var rest := OwnedBy(pings[1..], userId);
      if pings[0].userId == userId then [pings[0]] + rest else rest
  }

  /**
   * `GET`. The caller's user record must exist (the route reads its role
   * without a check). A handler sees every ping; anyone else only their own.
   */
  function ListPings(pings: seq<Ping>, users: map<string, User>, auth: Option<Identity>): (r: Reply)
    requires ValidUsers(users)
    requires auth != None ==> HasId(users, auth.value.id)
    ensures auth == None ==> r == Unauthorized
    ensures auth != None ==> r.Listed? && NewestFirst(r.pings)
    ensures auth != None && UserById(users, auth.value.id).role == "handler" ==>
      multiset(r.pings) == multiset(pings)
    ensures auth != None && UserById(users, auth.value.id).role != "handler" ==>
      forall p :: multiset(r.pings)[p] == if p.userId == auth.value.id then multiset(pings)[p] else 0
  {
    if auth == None then Unauthorized
    else
      var user := UserById(users, auth.value.id);
      if user.role == "handler" then Listed(SortNewestFirst(pings))
      else Listed(SortNewestFirst(OwnedBy(pings, auth.value.id)))
  }

  /** A caller who is not a handler sees only pings they own, and every one of them. */
  lemma NonHandlerSeesOwnPings(pings: seq<Ping>, users: map<string, User>, who: Identity, p: Ping)
    requires ValidUsers(users) && HasId(users, who.id)
    requires UserById(users, who.id).role != "handler"
    ensures p in ListPings(pings, users, Some(who)).pings <==> p in pings && p.userId == who.id
  {
    var r := ListPings(pings, users, Some(who)).pings;
    assert multiset(r)[p] == if p.userId == who.id then multiset(pings)[p] else 0;
  }

  /** A handler sees every stored ping, whoever owns it. */
  lemma HandlerSeesAllPings(pings: seq<Ping>, users: map<string, User>, who: Identity, p: Ping)
    requires ValidUsers(users) && HasId(users, who.id)
    requires UserById(users, who.id).role == "handler"
    ensures p in ListPings(pings, users, Some(who)).pings <==> p in pings
  {
    var r := ListPings(pings, users, Some(who)).pings;
    assert multiset(r)[p] == multiset(pings)[p];
  }

  /** A ping just created by a caller shows up in that caller's next listing. */
  lemma CreatedPingIsListed(
    pings: seq<Ping>, users: map<string, User>, who: Identity,
    body: PingBody, now: string, createdAt: int, newId: string)
    requires ValidUsers(users) && HasId(users, who.id)
    requires Storable(body)
    ensures NewPing(who, body, now, createdAt, newId)
         in ListPings(pings + [NewPing(who, body, now, createdAt, newId)], users, Some(who)).pings
  {
    var p := NewPing(who, body, now, createdAt, newId);
    var r := ListPings(pings + [p], users, Some(who)).pings;
    assert multiset(pings + [p])[p] > 0;
    assert multiset(r)[p] > 0;
  }

  /** With distinct ids, no ping is stored twice. */
  lemma {:induction false} DistinctIdsAtMostOnce(pings: seq<Ping>, p: Ping)
    requires DistinctIds(pings)
    ensures multiset(pings)[p] <= 1
  {
    if pings != [] {
      assert pings == [pings[0]] + pings[1..];
      assert DistinctIds(pings[1..]) by {
        forall i, j | 0 <= i < j < |pings[1..]|
          ensures pings[1..][i].id != pings[1..][j].id
        {
          assert pings[1..][i] == pings[i + 1] && pings[1..][j] == pings[j + 1];
        }
      }
      DistinctIdsAtMostOnce(pings[1..], p);
      if pings[0] == p {
        assert p !in pings[1..] by {
          forall k | 0 <= k < |pings[1..]|
            ensures pings[1..][k] != p
          {
            assert pings[1..][k] == pings[k + 1];
          }
        }
      }
    }
  }

  /** A listing of a valid store never shows the same ping twice, whatever the caller's role. */
  lemma ListingHasNoDuplicates(pings: seq<Ping>, users: map<string, User>, who: Identity, p: Ping)
    requires DistinctIds(pings)
    requires ValidUsers(users) && HasId(users, who.id)
    ensures multiset(ListPings(pings, users, Some(who)).pings)[p] <= 1
  {
    DistinctIdsAtMostOnce(pings, p);
  }
}
