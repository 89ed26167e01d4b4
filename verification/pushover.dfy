/**
  One Pushover notification: the credentials check, the form fields posted to
  the messages endpoint, and how the answer is read as `(ok, reason)`. The
  HTTP exchange itself is an input: what `urlopen` raised, or the status and
  body it returned together with what `json.loads` made of the body.
 */
module Pushover {
  import opened Wrappers
  import opened PyText

  /** The endpoint the form is posted to (`PUSHOVER_API_URL`). */
  const ApiUrl := "https://api.pushover.net/1/messages.json"

  /** The link caption used when the caller gives none. */
  const DefaultUrlTitle := "Open in Discord"

  /** The reason given when either credential is blank. */
  const MissingCredentials := "PushoverのApp Token / User Key が未設定です。"

  /** One form field, in the order it is added to the request. */
  datatype Param = Param(key: string, value: string)

  /** What the HTTP exchange produced. `parsed` is `None` when the body is not JSON. */
  datatype HttpOutcome =
    | Raised(error: string)
    | Answered(status: int, body: string, parsed: Option<Json>)

  /** The `(ok, reason)` pair, plus the form that was posted, if any. */
  datatype Delivery = Delivery(ok: bool, reason: string, posted: Option<seq<Param>>)

  /** The key is used by none of the fields. */
  predicate Absent(ps: seq<Param>, key: string) {
    forall i :: 0 <= i < |ps| ==> ps[i].key != key
  }

  /** The value of the first field with the given key, if any. */
  function Lookup(ps: seq<Param>, key: string): (r: Option<string>)
    ensures r.None? <==> Absent(ps, key)
  {
    if |ps| == 0 then None
    else if ps[0].key == key then Some(ps[0].value)
    else
      var r := Lookup(ps[1..], key);
      assert forall i :: 1 <= i < |ps| ==> ps[1..][i - 1] == ps[i];
      r
  }

  /** The four fields every request carries. */
  function BaseParams(appToken: string, userKey: string, title: string, message: string): (ps: seq<Param>)
    ensures |ps| == 4
    ensures Absent(ps, "url") && Absent(ps, "url_title") && Absent(ps, "sound")
  {
    [Param("token", appToken), Param("user", userKey), Param("title", title), Param("message", message)]
  }

  /** The link and its caption, present only for a non-empty url. */
  function LinkParams(url: Option<string>, urlTitle: string): (ps: seq<Param>)
    ensures |ps| == if url.Some? && url.value != [] then 2 else 0
    ensures Lookup(ps, "url") == (if url.Some? && url.value != [] then url else None)
    ensures Lookup(ps, "url_title") == (if url.Some? && url.value != [] then Some(urlTitle) else None)
    ensures Absent(ps, "sound")
  {
    if url.Some? && url.value != [] then
      var ps := [Param("url", url.value), Param("url_title", urlTitle)];
      assert ps[1..] == [Param("url_title", urlTitle)];
      ps
    else []
  }

  /** The sound, present only when one is named. */
  function SoundParams(sound: string): (ps: seq<Param>)
    ensures |ps| == if sound != [] then 1 else 0
    ensures Lookup(ps, "sound") == (if sound != [] then Some(sound) else None)
  {
    if sound != [] then [Param("sound", sound)] else []
  }

  /**
    The form fields: token, user, title and message always, in that order; url
    and its caption only for a non-empty url; the sound only when one is named.
   */
  function Params(appToken: string, userKey: string, title: string, message: string,
                  url: Option<string>, urlTitle: string, sound: string): (ps: seq<Param>)
    ensures |ps| == 4 + (if url.Some? && url.value != [] then 2 else 0) + (if sound != [] then 1 else 0)
    ensures ps[..4] == [Param("token", appToken), Param("user", userKey), Param("title", title), Param("message", message)]
  {
    var base := BaseParams(appToken, userKey, title, message);
    var rest := LinkParams(url, urlTitle) + SoundParams(sound);
    assert (base + rest)[..4] == base;
    base + rest
  }

  /** The optional fields of the form carry the url, its caption and the sound exactly when those are given. */
  lemma ParamsOptional(appToken: string, userKey: string, title: string, message: string,
                       url: Option<string>, urlTitle: string, sound: string)
    ensures var ps := Params(appToken, userKey, title, message, url, urlTitle, sound);
            && Lookup(ps, "url") == (if url.Some? && url.value != [] then url else None)
            && Lookup(ps, "url_title") == (if url.Some? && url.value != [] then Some(urlTitle) else None)
            && Lookup(ps, "sound") == (if sound != [] then Some(sound) else None)
  {
    var base := BaseParams(appToken, userKey, title, message);
    var linked := LinkParams(url, urlTitle);
    var sounded := SoundParams(sound);
    LookupSkips(base, linked + sounded, "url");
    LookupSkips(base, linked + sounded, "url_title");
    LookupSkips(base, linked + sounded, "sound");
    LookupSkips(linked, sounded, "sound");
    if linked != [] {
      LookupFront(linked, sounded, "url");
      LookupFront(linked, sounded, "url_title");
    } else {
      assert linked + sounded == sounded;
    }
  }

  /** A key found in the front part is found there in the whole. */
  lemma {:induction false} LookupFront(front: seq<Param>, back: seq<Param>, key: string)
    requires !Absent(front, key)
    ensures Lookup(front + back, key) == Lookup(front, key)
    decreases |front|
  {
    assert (front + back)[0] == front[0];
    if front[0].key != key {
      assert (front + back)[1..] == front[1..] + back;
      assert !Absent(front[1..], key) by {
        var i :| 0 <= i < |front| && front[i].key == key;
        assert front[1..][i - 1] == front[i];
      }
      LookupFront(front[1..], back, key);
    }
  }

  /** Looking past a prefix that does not hold the key. */
  lemma {:induction false} LookupSkips(front: seq<Param>, back: seq<Param>, key: string)
    requires Absent(front, key)
    ensures Lookup(front + back, key) == Lookup(back, key)
    decreases |front|
  {
    if |front| > 0 {
      assert (front + back)[0] == front[0];
      assert (front + back)[1..] == front[1..] + back;
      assert Absent(front[1..], key) by {
        assert forall i :: 0 <= i < |front| - 1 ==> front[1..][i] == front[i + 1];
      }
      LookupSkips(front[1..], back, key);
    } else {
      assert front + back == back;
    }
  }

  /**
    How a 200 answer is read: a JSON object whose "status" converts to 1 is a
    success; any other object fails with its "errors", else its "error", else
    the raw body; a body that is not a JSON object, or a status `int()`
    rejects, counts as delivered.
   */
  function ReadAnswer(body: string, parsed: Option<Json>, repr: Json -> string): (r: (bool, string))
    ensures parsed.None? ==> r == (true, "")
    ensures parsed.Some? && !parsed.value.Obj? ==> r == (true, "")
    ensures !r.0 ==> parsed.Some? && parsed.value.Obj? && ToInt(Get(parsed.value.fields, "status", Int(0))) != Some(1)
    ensures r.0 ==> r.1 == []
    ensures parsed.Some? && parsed.value.Obj? && ToInt(Get(parsed.value.fields, "status", Int(0))).Some? ==>
              (r.0 <==> ToInt(Get(parsed.value.fields, "status", Int(0))).value == 1)
    ensures !r.0 && parsed.Some? && parsed.value.Obj? ==>
              var f := parsed.value.fields;
              r.1 == ToText(Or(Get(f, "errors", Null), Or(Get(f, "error", Null), Str(body))), repr)
  {
    match parsed
    case None => (true, "")
    case Some(j) =>
      if !j.Obj? then (true, "")
      else
        var f := j.fields;
        match ToInt(Get(f, "status", Int(0)))
        case None => (true, "")
        case Some(status) =>
          if status == 1 then (true, "")
          else
            var errs := Or(Get(f, "errors", Null), Or(Get(f, "error", Null), Str(body)));
            (false, ToText(errs, repr))
  }

  /**
    `_pushover_request_sync`. Blank credentials (after stripping) fail at once
    without a request; otherwise the stripped credentials are posted and the
    answer decides: an exception fails with its text, a status other than 200
    fails with "HTTP <status>: <body>", and a 200 answer is read by `ReadAnswer`.
   */
  function Request(appToken: string, userKey: string, title: string, message: string,
                   url: Option<string>, urlTitle: string, sound: string,
                   outcome: HttpOutcome, repr: Json -> string): (d: Delivery)
    ensures Trim(appToken) == [] || Trim(userKey) == [] <==> d.posted.None?
    ensures d.posted.None? ==> d == Delivery(false, MissingCredentials, None)
    ensures d.posted.Some? ==>
              d.posted.value == Params(Trim(appToken), Trim(userKey), title, message, url, urlTitle, sound)
    ensures d.posted.Some? && outcome.Raised? ==> !d.ok && d.reason == outcome.error
    ensures d.posted.Some? && outcome.Answered? && outcome.status != 200 ==>
              !d.ok && d.reason == "HTTP " + IntText(outcome.status) + ": " + outcome.body
    ensures d.posted.Some? && outcome.Answered? && outcome.status == 200 ==>
              (d.ok, d.reason) == ReadAnswer(outcome.body, outcome.parsed, repr)
    ensures d.ok ==> d.posted.Some? && outcome.Answered? && outcome.status == 200 && d.reason == []
  {
    var token := Trim(appToken);
    var user := Trim(userKey);
    if token == [] || user == [] then Delivery(false, MissingCredentials, None)
    else
      var ps := Params(token, user, title, message, url, urlTitle, sound);
      match outcome
      case Raised(e) => Delivery(false, e, Some(ps))
      case Answered(status, body, parsed) =>
        if status != 200 then Delivery(false, "HTTP " + IntText(status) + ": " + body, Some(ps))
        else
          var (ok, reason) := ReadAnswer(body, parsed, repr);
          Delivery(ok, reason, Some(ps))
  }

  /** A 200 answer whose body is not JSON is reported as delivered. */
  lemma NonJsonAnswerDelivers(appToken: string, userKey: string, title: string, message: string,
                              url: Option<string>, sound: string, body: string, repr: Json -> string)
    requires Trim(appToken) != [] && Trim(userKey) != []
    ensures Request(appToken, userKey, title, message, url, DefaultUrlTitle, sound, Answered(200, body, None), repr).ok
  {
  }

  /**
    A status other than 1 (a missing one reads as 0) is a rejection: its reason
    is the "errors" value if truthy, else the "error" value if truthy, else the
    raw body.
   */
  lemma RejectionReason(body: string, f: map<string, Json>, repr: Json -> string)
    requires ToInt(Get(f, "status", Int(0))).Some? && ToInt(Get(f, "status", Int(0))).value != 1
    ensures var r := ReadAnswer(body, Some(Obj(f)), repr);
            && !r.0
            && ("errors" in f && Truthy(f["errors"]) ==> r.1 == ToText(f["errors"], repr))
            && (!("errors" in f && Truthy(f["errors"])) && "error" in f && Truthy(f["error"]) ==>
                  r.1 == ToText(f["error"], repr))
            && (!("errors" in f && Truthy(f["errors"])) && !("error" in f && Truthy(f["error"])) ==> r.1 == body)
  {
  }

  /** An answer without a "status" field is a rejection. */
  lemma MissingStatusRejects(body: string, f: map<string, Json>, repr: Json -> string)
    requires "status" !in f
    ensures !ReadAnswer(body, Some(Obj(f)), repr).0
  {
  }

  /**
    With credentials given, a 200 answer holding a JSON object is a success
    exactly when its "status" converts to 1, or when `int()` rejects it.
   */
  lemma AcceptedIffStatusOne(appToken: string, userKey: string, title: string, message: string,
                             url: Option<string>, sound: string, body: string,
                             f: map<string, Json>, repr: Json -> string)
    requires Trim(appToken) != [] && Trim(userKey) != []
    ensures var d := Request(appToken, userKey, title, message, url, DefaultUrlTitle, sound,
                             Answered(200, body, Some(Obj(f))), repr);
            d.ok <==> ToInt(Get(f, "status", Int(0))).None? || ToInt(Get(f, "status", Int(0))) == Some(1)
  {
  }
}
