/**
 * The iOS share extension (ShareExtension/ShareViewController.swift): it
 * takes the first URL among the shared attachments, reads the session
 * token the app left in the shared app-group storage, posts the URL to
 * POST /api/v1/save-events and reports the outcome on screen.
 *
 * UIKit layout, the asynchronous attachment loading, the network and the
 * timers are not modelled: the stored values, the clock, the loaded URL and
 * the server's reply are parameters, and the scheduled close is recorded as
 * its delay.
 */
module ShareExtension {
  import opened Models
  import opened InitialSchema
  import opened Store
  import opened Worker
  import opened Deps
  import opened SaveEventsEndpoint

  // ---- the session token ----

  /** What the app group holds: the token's expiry (seconds) and the token. */
  datatype Stored = Stored(expiry: Option<int>, token: Option<string>)

  /** `getAuthToken`: the stored token while its expiry is strictly later
      than now. */
  function GetAuthToken(stored: Stored, now: int): (t: Option<string>)
    ensures t.Some? <==> stored.expiry.Some? && stored.expiry.value > now && stored.token.Some?
    ensures t.Some? ==> t == stored.token
  {
    match stored.expiry
    case None => None
    case Some(expiry) =>
      if expiry > now then stored.token else None
  }

  /** A token that is usable now was usable at every earlier moment, and no
      token is usable from its expiry on. */
  lemma TokenFreshness(stored: Stored, earlier: int, now: int)
    requires earlier <= now
    ensures GetAuthToken(stored, now).Some? ==> GetAuthToken(stored, earlier) == GetAuthToken(stored, now)
    ensures stored.expiry.Some? && now >= stored.expiry.value ==> GetAuthToken(stored, now).None?
  {
  }

  // ---- the request ----

  const ApiBaseUrl := "http://18.119.1.225:8000"
  const BearerPrefix := "Bearer "

  /** The JSON body: the URL, and null caption and target list. */
  datatype Body = Body(sourceUrl: string, rawCaption: Option<string>, targetListId: Option<Id>)

  datatype Request = Request(
    url: string,
    httpMethod: string,
    contentType: string,
    authorization: string,
    timeoutSeconds: nat,
    body: Body)

  /** The request `saveToBackend` sends for a shared URL. */
  function BuildRequest(token: string, sharedUrl: string): (req: Request)
    ensures req.httpMethod == "POST" && req.timeoutSeconds == 30
    ensures req.url == ApiBaseUrl + "/api/v1/save-events"
    ensures req.body == Body(sharedUrl, None, None)
    ensures ParseBearer(req.authorization) == Some(token)
  {
    BearerRoundTrip(token);
    Request(ApiBaseUrl + "/api/v1/save-events", "POST", "application/json", BearerPrefix + token, 30, Body(sharedUrl, None, None))
  }

  /** How the backend's HTTPBearer reads the Authorization header: the
      credentials after the "Bearer " scheme. */
  function ParseBearer(header: string): Option<string> {
    if |BearerPrefix| <= |header| && header[..|BearerPrefix|] == BearerPrefix then Some(header[|BearerPrefix|..])
    else None
  }

  lemma BearerRoundTrip(token: string)
    ensures ParseBearer(BearerPrefix + token) == Some(token)
  {
    var h := BearerPrefix + token;
    assert h[..|BearerPrefix|] == BearerPrefix;
    assert h[|BearerPrefix|..] == token;
  }

  // ---- the reply ----

  /** What the data task hands back: a transport error, a response that is
      not HTTP, or an HTTP status code. */
  datatype Reply = TransportError(description: string) | NotHttp | Http(statusCode: nat)

  datatype Outcome = Success | Failure(message: string)

  function DigitChar(d: nat): char
    requires d < 10
  {
    "0123456789"[d]
  }

  predicate IsDigits(s: string) {
    forall i :: 0 <= i < |s| ==> '0' <= s[i] <= '9'
  }

  /** Swift's decimal rendering of a status code. */
  function NatToString(n: nat): (s: string)
    ensures |s| > 0 && IsDigits(s)
    decreases n
  {
    if n < 10 then [DigitChar(n)] else NatToString(n / 10) + [DigitChar(n % 10)]
  }

  /** The number a string of decimal digits denotes. */
  function ParseNat(s: string): nat
    requires IsDigits(s)
    decreases |s|
  {
    if s == [] then 0 else 10 * ParseNat(s[..|s| - 1]) + (s[|s| - 1] as int - '0' as int)
  }

  /** The rendering is read back as the same number. */
  lemma {:induction false} NatToStringRoundTrip(n: nat)
    ensures ParseNat(NatToString(n)) == n
    decreases n
  {
    var s := NatToString(n);
    if n < 10 {
      assert s[..|s| - 1] == [];
    } else {
      NatToStringRoundTrip(n / 10);
      assert s[..|s| - 1] == NatToString(n / 10);
    }
  }

  /** The reply classification in `saveToBackend`: a transport error first,
      then a non-HTTP response, then 200 or 202 as success, 401 as a login
      problem and any other status as a server error naming the code. */
  function Classify(reply: Reply): (o: Outcome)
    ensures o.Success? <==> reply.Http? && (reply.statusCode == 200 || reply.statusCode == 202)
  {
    match reply
    case TransportError(description) => Failure("Network error: " + description)
    case NotHttp => Failure("Invalid response")
    case Http(code) =>
      if code == 202 || code == 200 then Success
      else if code == 401 then Failure("Please log in to Reel Mapper")
      else Failure("Server error (" + NatToString(code) + ")")
  }

  /** Reads the code back out of a "Server error (code)" message. */
  function ServerErrorCode(message: string): Option<nat> {
    var prefix := "Server error (";
    if |message| < |prefix| + 2 || message[..|prefix|] != prefix || message[|message| - 1] != ')' then None
    else
      var digits := message[|prefix|..|message| - 1];
      if IsDigits(digits) then Some(ParseNat(digits)) else None
  }

  /** Every status other than 200, 202 and 401 is reported with its code,
      which the message preserves. */
  lemma ServerErrorNamesCode(code: nat)
    requires code != 200 && code != 202 && code != 401
    ensures Classify(Http(code)).Failure?
    ensures ServerErrorCode(Classify(Http(code)).message) == Some(code)
  {
    var digits := NatToString(code);
    var m := "Server error (" + digits + ")";
    assert m[..14] == "Server error (";
    assert m[14..|m| - 1] == digits;
    NatToStringRoundTrip(code);
  }

  /** The HTTP status the backend answers an error with: its own
      HTTPException, or 500 for an uncaught IntegrityError. */
  function StatusOf(e: ApiError): nat {
    match e
    case HttpException(status, _) => status
    case IntegrityError => 500
  }

  /** How the extension reports a failed sign-in: a misconfigured server
      (ValueError, 500) as a server error, every other verification failure
      (401) as a login problem. */
  lemma AuthFailuresOnScreen(e: Exc)
    ensures Classify(Http(StatusOf(AuthError(e)))) ==
      if e.cls == ValueErr then Failure("Server error (500)") else Failure("Please log in to Reel Mapper")
  {
    AuthErrorMapping(e);
    if e.cls == ValueErr {
      assert NatToString(500) == "500" by {
        assert NatToString(50) == "50" by {
          assert NatToString(5) == "5";
        }
      }
    }
  }

  // ---- attachments ----

  /** A shared attachment: the type identifiers it conforms to, and the URL
      loading it as "public.url" yields, if any. */
  datatype Attachment = Attachment(typeIds: set<string>, loadedUrl: Option<string>)

  datatype ExtensionItem = ExtensionItem(attachments: Option<seq<Attachment>>)

  predicate ConformsToUrl(a: Attachment) {
    "public.url" in a.typeIds
  }

  /** The index of the first attachment conforming to "public.url". */
  function FirstUrlAttachment(attachments: seq<Attachment>): (i: Option<nat>)
    ensures i.Some? ==> i.value < |attachments| && ConformsToUrl(attachments[i.value])
    ensures i.Some? ==> forall j :: 0 <= j < i.value ==> !ConformsToUrl(attachments[j])
    ensures i.None? ==> forall j :: 0 <= j < |attachments| ==> !ConformsToUrl(attachments[j])
  {
    if attachments == [] then None
    else if ConformsToUrl(attachments[0]) then Some(0)
    else match FirstUrlAttachment(attachments[1..])
      case None => None
      case Some(i) => Some(i + 1)
  }

  /** What the extension ends up doing: sending one request, or showing an
      error. */
  datatype Action = Send(request: Request) | Report(message: string)

  /** `saveToBackend` up to the send. */
  function SaveAction(url: string, stored: Stored, now: int): Action {
    match GetAuthToken(stored, now)
    case None => Report("Open Reel Mapper first to refresh your session")
    case Some(token) => Send(BuildRequest(token, url))
  }

  /** `extractAndSaveURL` followed by `saveToBackend`. */
  function ShareAction(item: Option<ExtensionItem>, stored: Stored, now: int): Action {
    if item.None? then Report("No content to share")
    else
      var attachments := item.value.attachments.GetOr([]);
      match FirstUrlAttachment(attachments)
      case None => Report("No URL found in shared content")
      case Some(i) =>
        if attachments[i].loadedUrl.None? then Report("Could not extract URL")
        else SaveAction(attachments[i].loadedUrl.value, stored, now)
  }

  /** A request goes out only with a token that has not expired, and it
      carries the URL of the first attachment conforming to "public.url";
      attachments after that one are never looked at. */
  lemma SendOnlyFirstUrlWithFreshToken(item: Option<ExtensionItem>, stored: Stored, now: int)
    ensures ShareAction(item, stored, now).Send? ==>
      && stored.expiry.Some? && stored.expiry.value > now && stored.token.Some?
      && item.Some? && item.value.attachments.Some?
      && var i := FirstUrlAttachment(item.value.attachments.value);
         && i.Some?
         && ShareAction(item, stored, now).request == BuildRequest(stored.token.value, item.value.attachments.value[i.value].loadedUrl.value)
  {
  }

  // ---- the backend answering the extension ----

  /** A share with a fresh token, answered by the backend for the signed-in
      user: the request body names no target list, so the backend records
      a pending "instagram" event for the shared URL under a new id, queues
      exactly that id and answers 202, which the extension reports as
      success. */
  method ShareIsAccepted(db: Database, queue: TaskQueue, userId: Id, token: string, url: string)
    returns (o: Outcome, id: Id)
    requires db.Valid() && userId in db.users
    modifies db, queue
    ensures o == Success
    ensures db.Valid()
    ensures id !in old(db.saveEvents)
    ensures db.Snapshot() == old(db.Snapshot()).(saveEvents := old(db.saveEvents)[id := RequestedEvent(userId, url, None, None)])
    ensures queue.jobs == old(queue.jobs) + [id]
  {
    var req := BuildRequest(token, url);
    var r := CreateSaveEvent(db, queue, userId, req.body.sourceUrl, req.body.rawCaption, req.body.targetListId);
    id := r.value.id;
    o := Classify(Http(r.value.httpStatus));
  }

  // ---- the view controller ----

  /** What the extension's view shows. */
  datatype Screen = Screen(status: string, indicatorAnimating: bool, indicatorHidden: bool, closeAfterSeconds: Option<nat>)

  /** `setupUI`. */
  const Saving := Screen("Saving to Reel Mapper...", true, false, None)

  /** `showSuccess`: the check mark, and closing after one second. */
  const Saved := Screen("\U{2705} Saved to Reel Mapper!", false, true, Some(1))

  /** `showError`: the cross mark and the message, and closing after two
      seconds. */
  function ErrorScreen(message: string): Screen {
    Screen("\U{274C} " + message, false, true, Some(2))
  }

  function OutcomeScreen(o: Outcome): Screen {
    match o
    case Success => Saved
    case Failure(message) => ErrorScreen(message)
  }

  class ShareViewController {
    var status: string
    var indicatorAnimating: bool
    var indicatorHidden: bool
    var closeAfterSeconds: Option<nat>
    /** The requests sent so far. */
    var sent: seq<Request>

    function Shown(): Screen
      reads this
    {
      Screen(status, indicatorAnimating, indicatorHidden, closeAfterSeconds)
    }

    /** `viewDidLoad` up to `setupUI`. */
    constructor ()
      ensures Shown() == Saving && sent == []
    {
      status := "Saving to Reel Mapper...";
      indicatorAnimating := true;
      indicatorHidden := false;
      closeAfterSeconds := None;
      sent := [];
    }

    method ShowSuccess()
      modifies this
      ensures Shown() == Saved && sent == old(sent)
    {
      indicatorAnimating := false;
      indicatorHidden := true;
      status := "\U{2705} Saved to Reel Mapper!";
      closeAfterSeconds := Some(1);
    }

    method ShowError(message: string)
      modifies this
      ensures Shown() == ErrorScreen(message) && sent == old(sent)
    {
      indicatorAnimating := false;
      indicatorHidden := true;
      status := "\U{274C} " + message;
      closeAfterSeconds := Some(2);
    }

    /** `saveToBackend` up to `task.resume()`: without a fresh token an
        error is shown and nothing is sent. */
    method SaveToBackend(url: string, stored: Stored, now: int)
      modifies this
      ensures match SaveAction(url, stored, now)
        case Send(req) => sent == old(sent) + [req] && Shown() == old(Shown())
        case Report(message) => sent == old(sent) && Shown() == ErrorScreen(message)
    {
      var token := GetAuthToken(stored, now);
      if token.None? {
        ShowError("Open Reel Mapper first to refresh your session");
        return;
      }
      sent := sent + [BuildRequest(token.value, url)];
    }

    /** The data task's completion handler. */
    method HandleReply(reply: Reply)
      modifies this
      ensures Shown() == OutcomeScreen(Classify(reply)) && sent == old(sent)
    {
      if reply.TransportError? {
        ShowError("Network error: " + reply.description);
        return;
      }
      if reply.NotHttp? {
        ShowError("Invalid response");
        return;
      }
      if reply.statusCode == 202 || reply.statusCode == 200 {
        ShowSuccess();
      } else if reply.statusCode == 401 {
        ShowError("Please log in to Reel Mapper");
      } else {
        ShowError("Server error (" + NatToString(reply.statusCode) + ")");
      }
    }

    /** `extractAndSaveURL`: the attachments are scanned in order and the
        first one conforming to "public.url" is loaded and saved. */
    method ExtractAndSaveUrl(item: Option<ExtensionItem>, stored: Stored, now: int)
      modifies this
      ensures match ShareAction(item, stored, now)
        case Send(req) => sent == old(sent) + [req] && Shown() == old(Shown())
        case Report(message) => sent == old(sent) && Shown() == ErrorScreen(message)
    {
      if item.None? {
        ShowError("No content to share");
        return;
      }
      if item.value.attachments.Some? {
        var attachments := item.value.attachments.value;
        var i := 0;
        while i < |attachments|
          invariant 0 <= i <= |attachments|
          invariant forall j :: 0 <= j < i ==> !ConformsToUrl(attachments[j])
          invariant sent == old(sent) && Shown() == old(Shown())
        {
          if ConformsToUrl(attachments[i]) {
            assert FirstUrlAttachment(attachments) == Some(i);
            if attachments[i].loadedUrl.Some? {
              SaveToBackend(attachments[i].loadedUrl.value, stored, now);
            } else {
              ShowError("Could not extract URL");
            }
            return;
          }
          i := i + 1;
        }
        assert FirstUrlAttachment(attachments).None?;
      }
      ShowError("No URL found in shared content");
    }
  }
}
