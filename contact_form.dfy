/** The contact section's client side: the form that posts to the contact
    endpoint, and the `mailto:` links built from message templates. */
module ContactClient {
  import opened Wrappers

  const OwnerName := "Yash Patil"
  const OwnerEmail := "yashspatil4779@gmail.com"
  const SuccessMessage := "Message sent \U{2014} thank you!"
  const SubmissionFailed := "Submission failed"
  const NetworkError := "Network error"

  /** The JSON document the form sends. */
  datatype Submission = Submission(name: string, email: string, message: string)

  /** What `res.json()` yields: it throws on a body that is not JSON;
      otherwise the `error` property of the parsed value (absent for a
      `null` value or one without that property). */
  datatype JsonBody = NotJson | Json(error: Option<string>)

  /** The outcome of `fetch`: a transport failure, or a response with its
      `ok` flag (status 2xx) and body. */
  datatype FetchResult = TransportFailure | Answer(ok: bool, body: JsonBody)

  /** `data?.error || 'Submission failed'`. */
  function FailureMessage(error: Option<string>): (m: string)
    ensures m != ""
    ensures error.Some? && error.value != "" ==> m == error.value
    ensures error.None? || error.value == "" ==> m == SubmissionFailed
  {
    if error.Some? && error.value != "" then error.value else SubmissionFailed
  }

  /** The state of `ContactForm`: the three controlled inputs, the in-flight
      flag and the two status messages. */
  class ContactForm {
    var name: string
    var email: string
    var message: string
    var loading: bool
    var success: Option<string>
    var error: Option<string>

    /** At most one status message is shown, and none while a request is in flight. */
    ghost predicate Valid()
      reads this
    {
      !(success.Some? && error.Some?) && (loading ==> success.None? && error.None?)
    }

    constructor ()
      ensures Valid()
      ensures name == "" && email == "" && message == ""
      ensures !loading && success.None? && error.None?
    {
      name, email, message := "", "", "";
      loading := false;
      success, error := None, None;
    }

    /** An `onChange` handler of one of the inputs. */
    method Edit(newName: string, newEmail: string, newMessage: string)
      modifies this
      ensures name == newName && email == newEmail && message == newMessage
      ensures loading == old(loading) && success == old(success) && error == old(error)
    {
      name, email, message := newName, newEmail, newMessage;
    }

    /** The synchronous start of `submit` (lines 24-27): mark in flight, clear
        both messages, and give the document that is posted. */
    method Begin() returns (sent: Submission)
      modifies this
      ensures loading && success.None? && error.None?
      ensures name == old(name) && email == old(email) && message == old(message)
      ensures sent == Submission(name, email, message)
      ensures Valid()
    {
      loading := true;
      error := None;
      success := None;
      sent := Submission(name, email, message);
    }

    /** What `submit` does once `fetch` has settled (lines 36-50). `res.json()`
        runs before the status test, so a body that is not JSON ends in the
        catch branch even on a 2xx response. */
    method Settle(result: FetchResult)
      requires success.None? && error.None?
      modifies this
      ensures !loading
      ensures Valid()
      ensures result.Answer? && result.ok && result.body.Json? ==>
                success == Some(SuccessMessage) && error.None? &&
                name == "" && email == "" && message == ""
      ensures result.Answer? && !result.ok && result.body.Json? ==>
                error == Some(FailureMessage(result.body.error)) && success.None? &&
                name == old(name) && email == old(email) && message == old(message)
      ensures result.TransportFailure? || result.body.NotJson? ==>
                error == Some(NetworkError) && success.None? &&
                name == old(name) && email == old(email) && message == old(message)
    {
      match result {
        case TransportFailure =>
          error := Some(NetworkError);
        case Answer(ok, body) =>
          if body.NotJson? {
            error := Some(NetworkError);
          } else if !ok {
            error := Some(FailureMessage(body.error));
          } else {
            success := Some(SuccessMessage);
            name := "";
            email := "";
            message := "";
          }
      }
      // the `finally` clause
      loading := false;
    }

    /** `submit`: post the current fields, then show the outcome. */
    method Submit(result: FetchResult) returns (sent: Submission)
      modifies this
      ensures sent == Submission(old(name), old(email), old(message))
      ensures !loading
      ensures Valid()
      ensures result.Answer? && result.ok && result.body.Json? ==>
                success == Some(SuccessMessage) && error.None? &&
                name == "" && email == "" && message == ""
      ensures result.Answer? && !result.ok && result.body.Json? ==>
                error == Some(FailureMessage(result.body.error)) && success.None? &&
                name == old(name) && email == old(email) && message == old(message)
      ensures result.TransportFailure? || result.body.NotJson? ==>
                error == Some(NetworkError) && success.None? &&
                name == old(name) && email == old(email) && message == old(message)
    {
      sent := Begin();
      Settle(result);
    }
  }

  /** One entry of the `templates` table. */
  datatype Template = Template(key: string, caption: string, subject: string, body: string)

  /** The message templates, in their order on the page; the bodies are
      already URL-encoded. */
  const Templates: seq<Template> := [
    Template("general", "General", "Inquiry from portfolio - " + OwnerName,
             "Hi " + OwnerName + ",%0D%0A%0D%0AI came across your portfolio and would like to get in touch regarding...%0D%0A%0D%0AThanks,%0D%0A[Your name]"),
    Template("collab", "Collaboration", "Collaboration opportunity - " + OwnerName,
             "Hi " + OwnerName + ",%0D%0A%0D%0AI'd like to discuss a potential collaboration on...%0D%0A%0D%0ARegards,%0D%0A[Your name]"),
    Template("job", "Job / Contract", "Opportunity - " + OwnerName,
             "Hi " + OwnerName + ",%0D%0A%0D%0AI'm reaching out about a role/opportunity that might interest you...%0D%0A%0D%0ABest,%0D%0A[Your name]")
  ]

  /** `ts.find(x => x.key === key)`: the first template with that key. */
  function Find(ts: seq<Template>, key: string): (r: Option<nat>)
    ensures r.Some? ==> r.value < |ts| && ts[r.value].key == key
    ensures r.Some? ==> forall j :: 0 <= j < r.value ==> ts[j].key != key
    ensures r.None? ==> forall j :: 0 <= j < |ts| ==> ts[j].key != key
  {
    if ts == [] then None
    else if ts[0].key == key then Some(0)
    else match Find(ts[1..], key)
      case None => None
      case Some(i) => Some(i + 1)
  }

  /** The template `buildMailto` uses: the one with the key, else the first. */
  function Selected(key: string): (t: Template)
    ensures t in Templates
    ensures (exists j :: 0 <= j < |Templates| && Templates[j].key == key) ==> t.key == key
    ensures (forall j :: 0 <= j < |Templates| ==> Templates[j].key != key) ==> t == Templates[0]
  {
    match Find(Templates, key)
    case Some(i) => Templates[i]
    case None => Templates[0]
  }

  /** The link for one template. `encode` is `encodeURIComponent`; the
      body is used as it stands in the table. */
  function Mailto(t: Template, encode: string -> string): string {
    "mailto:" + OwnerEmail + "?subject=" + encode(t.subject) + "&body=" + t.body
  }

  /** `buildMailto`: the link for the selected template. */
  function BuildMailto(key: string, encode: string -> string): string {
    Mailto(Selected(key), encode)
  }

  /** A key that names no template gives the same link as `'general'`. */
  lemma UnknownKeyUsesGeneral(key: string, encode: string -> string)
    requires key != "general" && key != "collab" && key != "job"
    ensures BuildMailto(key, encode) == BuildMailto("general", encode)
  {
  }

  /** A link addresses the owner, and ends with its template's body as it
      stands in the table: the body is not passed through the encoder a
      second time. */
  lemma MailtoShape(t: Template, encode: string -> string)
    ensures var r := Mailto(t, encode);
            var head := "mailto:" + OwnerEmail + "?subject=";
            var tail := "&body=" + t.body;
            |head| + |tail| <= |r| && r[..|head|] == head && r[|r| - |tail|..] == tail
  {
    var head := "mailto:" + OwnerEmail + "?subject=";
    var tail := "&body=" + t.body;
    var mid := encode(t.subject);
    var r := Mailto(t, encode);
    var rest := mid + tail;
    assert r == head + rest;
    assert r[..|head|] == head;
    var front := head + mid;
    assert r == front + tail;
    assert r[|front|..] == tail;
  }
}
