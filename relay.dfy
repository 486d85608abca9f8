/**
 * The single-value relay: one optional identifier, written through two POST
 * routes, reset by a clear, and read back as plain text or on the status page.
 *
 * `Handle` is the reference semantics of one request over the stored value;
 * `RelayServer` is the server object whose methods update the value in place
 * and are proved to follow `Handle`.
 */
module Relay {
  import opened Wrappers
  import opened Format

  /** An HTTP reply: status code and plain-text body. */
  datatype Response = Response(status: nat, body: string)

  const OkResp := Response(200, "OK")
  const InvalidIdResp := Response(400, "Invalid ID")
  const BadRequestResp := Response(400, "Bad Request")

  /**
   * What reading the JSON body of `POST /post` produced: a failure (the body
   * is not JSON, not an object, or its `id` is not a string), an object with
   * no `id` field, or a string `id`.
   */
  datatype BodyParse = ParseFail | NoIdField | IdStr(s: string)

  /** The five routes of the relay. */
  datatype Route =
    | LatestPath                    // GET /latest
    | PostPath(gameId: string)      // GET /post/<game_id>
    | PostBody(body: BodyParse)     // POST /post
    | ClearPath                     // GET /clear
    | RootPath                      // GET /

  /** The new stored value and the reply of one request. */
  datatype Outcome = Outcome(state: Option<string>, resp: Response)

  /** The length rule both POST routes apply: a 36-character UUID or a hex string of 64 or more. */
  predicate ValidId(id: string)
    ensures ValidId(id) ==> |id| > 20
    ensures ValidId(id) ==> (|id| <= 40 <==> |id| == 36)
  {
    |id| == 36 || |id| >= 64
  }

  /** The invariant of the stored value: absent, or an identifier that passed `ValidId`. */
  predicate StoredOk(v: Option<string>) {
    v.Some? ==> ValidId(v.value)
  }

  /** Body of `GET /latest`: the stored value, or "" when it is absent (or falsy). */
  function LatestBody(v: Option<string>): (r: string)
    ensures v.Some? ==> r == v.value
    ensures v.None? ==> r == ""
  {
    if v.Some? && v.value != "" then v.value else ""
  }

  /** The requests that set the stored value whatever it was: a clear and every accepted post. */
  predicate Writes(r: Route) {
    || r.ClearPath?
    || (r.PostPath? && ValidId(r.gameId))
    || (r.PostBody? && r.body.IdStr? && ValidId(r.body.s))
  }

  /** The value a writing request leaves behind. */
  function Target(r: Route): Option<string>
    requires Writes(r)
  {
    match r
    case PostPath(id) => Some(id)
    case PostBody(b) => Some(b.s)
    case ClearPath => None
  }

  /** One request applied to the stored value `v`, as the route handlers do it. */
  function Handle(v: Option<string>, r: Route): (o: Outcome)
    ensures o.state == (if Writes(r) then Target(r) else v)
    ensures StoredOk(v) ==> StoredOk(o.state)
    ensures o.resp.status == 400 ==> o.state == v
    ensures o.resp.status == 200 || o.resp.status == 400
  {
    match r
    case LatestPath => Outcome(v, Response(200, LatestBody(v)))
    case PostPath(id) =>
      if ValidId(id) then Outcome(Some(id), OkResp) else Outcome(v, InvalidIdResp)
    case PostBody(b) =>
      if b.ParseFail? then Outcome(v, BadRequestResp)
      else
        var id := if b.IdStr? then b.s else "";
        if ValidId(id) then Outcome(Some(id), OkResp) else Outcome(v, InvalidIdResp)
    case ClearPath => Outcome(None, OkResp)
    case RootPath => Outcome(v, Response(200, Display(v)))
  }

  /** The stored value after a sequence of requests served one at a time. */
  function Run(v: Option<string>, rs: seq<Route>): Option<string>
    decreases |rs|
  {
    if rs == [] then v else Run(Handle(v, rs[0]).state, rs[1..])
  }

  // ---------------------------------------------------------------------------
  // Properties of single requests

  /** Both POST routes accept exactly the identifiers of length 36 or at least 64, and agree on every reply. */
  lemma PostAcceptedIff(v: Option<string>, id: string)
    ensures Handle(v, PostPath(id)) == Handle(v, PostBody(IdStr(id)))
    ensures Handle(v, PostPath(id)).resp == OkResp <==> (|id| == 36 || |id| >= 64)
    ensures Handle(v, PostPath(id)).resp == OkResp ==> Handle(v, PostPath(id)).state == Some(id)
    ensures Handle(v, PostPath(id)).resp != OkResp ==>
              Handle(v, PostPath(id)) == Outcome(v, InvalidIdResp)
  {
  }

  /** A body that cannot be read is a bad request; a body without `id` is an invalid id. Neither changes the value. */
  lemma PostBodyErrors(v: Option<string>)
    ensures Handle(v, PostBody(ParseFail)) == Outcome(v, BadRequestResp)
    ensures Handle(v, PostBody(NoIdField)) == Outcome(v, InvalidIdResp)
  {
  }

  /** `GET /latest` and the status page never change the value; `/latest` shows the value or "". */
  lemma ReadsChangeNothing(v: Option<string>)
    ensures Handle(v, LatestPath) == Outcome(v, Response(200, if v.Some? then v.value else ""))
    ensures Handle(v, RootPath).state == v
  {
  }

  /** Clear always answers "OK" and empties the value; a second clear changes nothing. */
  lemma ClearIdempotent(v: Option<string>)
    ensures Handle(v, ClearPath) == Outcome(None, OkResp)
    ensures Handle(Handle(v, ClearPath).state, ClearPath) == Handle(v, ClearPath)
    ensures Handle(Handle(v, ClearPath).state, LatestPath).resp == Response(200, "")
  {
  }

  /** A stored value is never the empty string, and its log preview is always 20 characters and an ellipsis. */
  lemma AcceptedPreview(id: string)
    requires ValidId(id)
    ensures id != ""
    ensures Preview(id) == id[..20] + Ellipsis
  {
  }

  /** On the status page a stored 36-character id is shown whole, and every stored id of 64 or more is elided. */
  lemma DisplayOfStored(v: Option<string>)
    requires StoredOk(v)
    ensures v == None ==> Display(v) == Placeholder
    ensures v.Some? && |v.value| == 36 ==> Display(v) == v.value
    ensures v.Some? && |v.value| >= 64 ==>
              && |Display(v)| > 43
              && Display(v)[..43] == v.value[..20] + Ellipsis + v.value[|v.value| - 20..]
              && Display(v)[43..] == LengthNote(|v.value|)
  {
    match v
    case None =>
    case Some(x) =>
      if |x| >= 64 {
        DisplayLong(x);
      }
  }

  // ---------------------------------------------------------------------------
  // Properties of request sequences

  lemma {:induction false} RunAppend(v: Option<string>, a: seq<Route>, b: seq<Route>)
    ensures Run(v, a + b) == Run(Run(v, a), b)
    decreases |a|
  {
    if a == [] {
      assert a + b == b;
    } else {
      assert (a + b)[0] == a[0];
      assert (a + b)[1..] == a[1..] + b;
      RunAppend(Handle(v, a[0]).state, a[1..], b);
    }
  }

  /** Every sequence of requests keeps the invariant of the stored value. */
  lemma {:induction false} RunKeepsInvariant(v: Option<string>, rs: seq<Route>)
    requires StoredOk(v)
    ensures StoredOk(Run(v, rs))
    decreases |rs|
  {
    if rs != [] {
      RunKeepsInvariant(Handle(v, rs[0]).state, rs[1..]);
    }
  }

  /** Requests that are neither a clear nor an accepted post leave the value as it was. */
  lemma {:induction false} QuietRun(v: Option<string>, rs: seq<Route>)
    requires forall i :: 0 <= i < |rs| ==> !Writes(rs[i])
    ensures Run(v, rs) == v
    decreases |rs|
  {
    if rs != [] {
      assert !Writes(rs[0]);
      QuietRun(v, rs[1..]);
    }
  }

  /** The value after a sequence is the one left by its last write. */
  lemma LastWriteWins(v: Option<string>, rs: seq<Route>, k: nat)
    requires k < |rs| && Writes(rs[k])
    requires forall i :: k < i < |rs| ==> !Writes(rs[i])
    ensures Run(v, rs) == Target(rs[k])
  {
    assert rs == rs[..k] + ([rs[k]] + rs[k + 1..]);
    RunAppend(v, rs[..k], [rs[k]] + rs[k + 1..]);
    var w := Run(v, rs[..k]);
    RunAppend(w, [rs[k]], rs[k + 1..]);
    assert Run(w, [rs[k]]) == Run(Handle(w, rs[k]).state, []);
    QuietRun(Target(rs[k]), rs[k + 1..]);
  }

  /** After an accepted post of `id`, `/latest` returns `id` until the next accepted post or clear. */
  lemma LatestAfterPost(v: Option<string>, id: string, rs: seq<Route>)
    requires ValidId(id)
    requires forall i :: 0 <= i < |rs| ==> !Writes(rs[i])
    ensures Handle(Run(v, [PostPath(id)] + rs), LatestPath).resp == Response(200, id)
    ensures Handle(Run(v, [PostBody(IdStr(id))] + rs), LatestPath).resp == Response(200, id)
  {
    LastWriteWins(v, [PostPath(id)] + rs, 0);
    LastWriteWins(v, [PostBody(IdStr(id))] + rs, 0);
  }

  // ---------------------------------------------------------------------------
  // The server object

  /** The relay process: the module-level `latest_id` becomes the field `latest`. */
  class RelayServer {
    var latest: Option<string>

    ghost predicate Valid()
      reads this
    {
      StoredOk(latest)
    }

    constructor ()
      ensures Valid() && latest == None
    {
      latest := None;
    }

    /** `GET /latest`. */
    method GetLatest() returns (resp: Response)
      requires Valid()
      ensures resp == Response(200, if latest.Some? then latest.value else "")
      ensures Handle(latest, LatestPath) == Outcome(latest, resp)
    {
      resp := Response(200, if latest.Some? && latest.value != "" then latest.value else "");
    }

    /** `GET /post/<game_id>`. */
    method PostIdGet(gameId: string) returns (resp: Response)
      requires Valid()
      modifies this
      ensures Valid()
      ensures ValidId(gameId) ==> latest == Some(gameId) && resp == OkResp
      ensures !ValidId(gameId) ==> latest == old(latest) && resp == InvalidIdResp
      ensures Outcome(latest, resp) == Handle(old(latest), PostPath(gameId))
    {
      if |gameId| == 36 || |gameId| >= 64 {
        latest := Some(gameId);
        return OkResp;
      }
      return InvalidIdResp;
    }

    /** `POST /post` with a JSON body. */
    method PostIdJson(body: BodyParse) returns (resp: Response)
      requires Valid()
      modifies this
      ensures Valid()
      ensures body.ParseFail? ==> latest == old(latest) && resp == BadRequestResp
      ensures body.NoIdField? ==> latest == old(latest) && resp == InvalidIdResp
      ensures body.IdStr? && ValidId(body.s) ==> latest == Some(body.s) && resp == OkResp
      ensures body.IdStr? && !ValidId(body.s) ==> latest == old(latest) && resp == InvalidIdResp
      ensures Outcome(latest, resp) == Handle(old(latest), PostBody(body))
    {
      if body.ParseFail? {
        return BadRequestResp;
      }
      var gameId := if body.IdStr? then body.s else "";
      if |gameId| == 36 || |gameId| >= 64 {
        latest := Some(gameId);
        return OkResp;
      }
      return InvalidIdResp;
    }

    /** `GET /clear`. */
    method Clear() returns (resp: Response)
      requires Valid()
      modifies this
      ensures Valid()
      ensures latest == None && resp == OkResp
      ensures Outcome(latest, resp) == Handle(old(latest), ClearPath)
    {
      latest := None;
      resp := OkResp;
    }

    /** `GET /`: the identifier fragment of the status page. */
    method Home() returns (displayId: string)
      requires Valid()
      ensures latest == None ==> displayId == Placeholder
      ensures latest.Some? && |latest.value| == 36 ==> displayId == latest.value
      ensures latest.Some? && |latest.value| >= 64 ==>
                && |displayId| > 43
                && displayId[..43] == latest.value[..20] + Ellipsis + latest.value[|latest.value| - 20..]
                && displayId[43..] == LengthNote(|latest.value|)
      ensures Handle(latest, RootPath) == Outcome(latest, Response(200, displayId))
    {
      DisplayOfStored(latest);
      displayId := Display(latest);
    }
  }
}
