/** The contact intake endpoint (`POST /api/contact`): it validates three
    fields, then either sends the submission through the mail provider or,
    when no provider key is configured, appends it to a local JSON file.

    The network, the file system, the clock and the environment are inputs:
    `Config` holds the environment variables read at request time and `Io`
    the outcomes of the effectful steps of one request. The endpoint's state
    is the store file and the list of mails handed to the provider. */
module ContactRoute {
  import opened Wrappers
  import opened Strings

  const DefaultReceiver := "yashspatil4779@gmail.com"
  const DefaultSiteDomain := "example.com"
  const SubjectPrefix := "Portfolio contact from "
  const MissingFieldsError := "Missing required fields"
  const LocalSaveFailedError := "Email provider not configured and local save failed"
  const InternalError := "Internal server error"

  /** JavaScript truthiness of an environment variable or a string field:
      unset and the empty string are falsy. */
  predicate Truthy(v: Option<string>) {
    v.Some? && v.value != ""
  }

  /** `v || fallback` for an optional string. */
  function OrElse(v: Option<string>, fallback: string): (r: string)
    ensures Truthy(v) ==> r == v.value
    ensures !Truthy(v) ==> r == fallback
  {
    if Truthy(v) then v.value else fallback
  }

  /** The environment variables the handler reads. */
  datatype Config = Config(
    apiKey: Option<string>,      // SENDGRID_API_KEY
    sender: Option<string>,      // SENDGRID_SENDER
    siteDomain: Option<string>,  // NEXT_PUBLIC_SITE_DOMAIN
    receiver: Option<string>,    // CONTACT_RECEIVER_EMAIL
    autoreply: Option<string>,   // SENDGRID_AUTOREPLY
    ownerName: Option<string>)   // NEXT_PUBLIC_OWNER_NAME

  /** The request body after `req.json()`: either the parse threw, or the
      three fields picked out of `body || {}` (a null or non-object body gives
      three absent fields). */
  datatype Body =
    | Malformed
    | Fields(name: Option<string>, email: Option<string>, message: Option<string>)

  /** One record of the local store. */
  datatype Entry = Entry(name: string, email: string, message: string, receivedAt: string, savedLocally: bool)

  /** What `data/contacts.json` holds, as `JSON.parse(existing || '[]')` sees it:
      no file (readFile throws), an empty file, text that does not parse, a
      JSON value that is not an array, or an array of entries. */
  datatype StoreFile = NoFile | EmptyFile | Corrupt | NonArray | Entries(entries: seq<Entry>)

  /** One part of a mail body. */
  datatype Content = Content(mime: string, value: string)

  /** A provider send request (the `personalizations[0].to`, `from`,
      `reply_to`, `subject` and `content` of the payload). */
  datatype Mail = Mail(to: seq<string>, from: string, replyTo: Option<string>, subject: string, content: seq<Content>)

  /** Outcomes of the effectful steps of one request, and the clock. */
  datatype Io = Io(
    mkdirOk: bool,      // fs.mkdir of the data directory succeeds
    writeOk: bool,      // fs.writeFile of the store succeeds
    sendOk: bool,       // the provider answers the primary send with a 2xx status
    autoreplyOk: bool,  // the provider answers the autoreply with a 2xx status
    now: string)        // new Date().toISOString()

  /** The JSON response body. */
  datatype Reply = Ok | OkSavedLocal | Error(error: string)

  datatype Response = Response(status: int, reply: Reply)

  /** The validation of line 28: every field truthy. */
  predicate HasRequiredFields(body: Body) {
    body.Fields? && Truthy(body.name) && Truthy(body.email) && Truthy(body.message)
  }

  /** The sender address: SENDGRID_SENDER, or no-reply at the site domain. */
  function Sender(cfg: Config): (r: string)
    ensures Truthy(cfg.sender) ==> r == cfg.sender.value
    ensures !Truthy(cfg.sender) ==> StartsWith(r, "no-reply@")
    ensures !Truthy(cfg.sender) && Truthy(cfg.siteDomain) ==> r == "no-reply@" + cfg.siteDomain.value
    ensures !Truthy(cfg.sender) && !Truthy(cfg.siteDomain) ==> r == "no-reply@example.com"
  {
    OrElse(cfg.sender, "no-reply@" + OrElse(cfg.siteDomain, DefaultSiteDomain))
  }

  /** The address the submission is delivered to. */
  function Receiver(cfg: Config): (r: string)
    ensures r != ""
    ensures Truthy(cfg.receiver) ==> r == cfg.receiver.value
    ensures !Truthy(cfg.receiver) ==> r == DefaultReceiver
  {
    OrElse(cfg.receiver, DefaultReceiver)
  }

  /** What `JSON.parse` leaves in `arr`: a missing, empty or unparseable file
      reads as the empty list; a non-array value makes the later `push` throw,
      which is `None` here. */
  function ReadStore(f: StoreFile): (r: Option<seq<Entry>>)
    ensures r.None? <==> f.NonArray?
    ensures f.NoFile? || f.EmptyFile? || f.Corrupt? ==> r == Some([])
    ensures f.Entries? ==> r == Some(f.entries)
  {
    match f
    case NoFile => Some([])
    case EmptyFile => Some([])
    case Corrupt => Some([])
    case NonArray => None
    case Entries(es) => Some(es)
  }

  /** The plain-text body of the owner's mail (line 70). */
  function PlainBody(name: string, email: string, message: string): (t: string)
    ensures Contains(t, name) && Contains(t, email) && Contains(t, message)
  {
    var t := "Name: " + name + "\nEmail: " + email + "\n\n" + message;
    ContainsInfix(t, "Name: ", name, "\nEmail: " + email + "\n\n" + message);
    ContainsInfix(t, "Name: " + name + "\nEmail: ", email, "\n\n" + message);
    ContainsInfix(t, "Name: " + name + "\nEmail: " + email + "\n\n", message, "");
    t
  }

  /** The HTML body of the owner's mail (line 71). */
  function HtmlBody(name: string, email: string, message: string): (t: string)
    ensures Contains(t, name) && Contains(t, email) && Contains(t, message)
  {
    var t := "<p><strong>Name:</strong> " + name + "</p><p><strong>Email:</strong> " + email
             + "</p><div>" + message + "</div>";
    ContainsInfix(t, "<p><strong>Name:</strong> ", name,
                  "</p><p><strong>Email:</strong> " + email + "</p><div>" + message + "</div>");
    ContainsInfix(t, "<p><strong>Name:</strong> " + name + "</p><p><strong>Email:</strong> ", email,
                  "</p><div>" + message + "</div>");
    ContainsInfix(t, "<p><strong>Name:</strong> " + name + "</p><p><strong>Email:</strong> " + email
                  + "</p><div>", message, "</div>");
    t
  }

  /** The mail to the site owner (lines 60-73). */
  function PrimaryMail(name: string, email: string, message: string, cfg: Config): (m: Mail)
    ensures m.to == [Receiver(cfg)] && m.from == Sender(cfg)
    ensures m.replyTo == Some(email)
    ensures m.subject == SubjectPrefix + name
    ensures |m.content| == 2 && m.content[0].mime == "text/plain" && m.content[1].mime == "text/html"
    ensures forall c :: c in m.content ==>
              Contains(c.value, name) && Contains(c.value, email) && Contains(c.value, message)
  {
    Mail([Receiver(cfg)], Sender(cfg), Some(email), SubjectPrefix + name,
         [Content("text/plain", PlainBody(name, email, message)),
          Content("text/html", HtmlBody(name, email, message))])
  }

  /** The text of the acknowledgement (line 89). */
  function AutoreplyText(name: string, cfg: Config): (t: string)
    ensures Contains(t, name)
  {
    var t := "Thanks " + name + ",\n\nI received your message and will get back to you shortly.\n\n\U{2014} "
             + OrElse(cfg.ownerName, "");
    ContainsInfix(t, "Thanks ", name,
                  ",\n\nI received your message and will get back to you shortly.\n\n\U{2014} " + OrElse(cfg.ownerName, ""));
    t
  }

  /** The acknowledgement to the submitter (lines 80-91). */
  function AutoreplyMail(name: string, email: string, cfg: Config): (m: Mail)
    ensures m.to == [email] && m.from == Sender(cfg) && m.replyTo.None?
    ensures m.subject == "Thanks for contacting " + OrElse(cfg.ownerName, "me")
    ensures |m.content| == 1 && m.content[0].mime == "text/plain" && Contains(m.content[0].value, name)
  {
    Mail([email], Sender(cfg), None, "Thanks for contacting " + OrElse(cfg.ownerName, "me"),
         [Content("text/plain", AutoreplyText(name, cfg))])
  }

  /** The autoreply is attempted exactly when SENDGRID_AUTOREPLY is the string "1". */
  predicate AutoreplyEnabled(cfg: Config) {
    cfg.autoreply == Some("1")
  }

  /** The server side of the contact form: the store file on disk and the
      mails handed to the provider so far. */
  class ContactEndpoint {
    var store: StoreFile
    var outbox: seq<Mail>

    constructor (file: StoreFile)
      ensures store == file && outbox == []
    {
      store := file;
      outbox := [];
    }

    /** `sendSendGridMail`: the mail is handed to the provider; a non-2xx
        answer is reported as `false` (the source throws). */
    method Send(m: Mail, accepted: bool) returns (ok: bool)
      modifies this`outbox
      ensures outbox == old(outbox) + [m]
      ensures ok == accepted
    {
      outbox := outbox + [m];
      ok := accepted;
    }

    /** The local fallback (lines 38-57): create the directory, read and
        parse the store, push one entry, rewrite the file. */
    method SaveLocally(entry: Entry, io: Io) returns (res: Response)
      modifies this`store
      ensures ReadStore(old(store)).Some? && io.mkdirOk && io.writeOk ==>
                res == Response(200, OkSavedLocal) && store == Entries(ReadStore(old(store)).value + [entry])
      ensures !(ReadStore(old(store)).Some? && io.mkdirOk && io.writeOk) ==>
                res == Response(500, Error(LocalSaveFailedError)) && store == old(store)
    {
      if !io.mkdirOk {
        return Response(500, Error(LocalSaveFailedError));
      }
      var arr := ReadStore(store);
      if arr.None? {
        // `arr.push` is not a function on a non-array value
        return Response(500, Error(LocalSaveFailedError));
      }
      var pushed := arr.value + [entry];
      if !io.writeOk {
        return Response(500, Error(LocalSaveFailedError));
      }
      store := Entries(pushed);
      res := Response(200, OkSavedLocal);
    }

    /** `POST /api/contact`: exactly one response per request; at most one
        kind of side effect (provider sends or one store write). */
    method Post(body: Body, cfg: Config, io: Io) returns (res: Response)
      modifies this
      // an unparseable body is an internal error, with no side effect
      ensures body.Malformed? ==>
                res == Response(500, Error(InternalError)) && store == old(store) && outbox == old(outbox)
      // a missing or empty field is rejected before any side effect
      ensures body.Fields? && !HasRequiredFields(body) ==>
                res == Response(400, Error(MissingFieldsError)) && store == old(store) && outbox == old(outbox)
      // without a key: no send; either exactly one entry is appended or the store is unchanged
      ensures HasRequiredFields(body) && !Truthy(cfg.apiKey) ==>
                outbox == old(outbox) &&
                var entry := Entry(body.name.value, body.email.value, body.message.value, io.now, true);
                if ReadStore(old(store)).Some? && io.mkdirOk && io.writeOk then
                  res == Response(200, OkSavedLocal) && store == Entries(ReadStore(old(store)).value + [entry])
                else
                  res == Response(500, Error(LocalSaveFailedError)) && store == old(store)
      // with a key: the store is never touched and the primary mail is always attempted
      ensures HasRequiredFields(body) && Truthy(cfg.apiKey) ==>
                store == old(store) &&
                var primary := PrimaryMail(body.name.value, body.email.value, body.message.value, cfg);
                if !io.sendOk then
                  res == Response(500, Error(InternalError)) && outbox == old(outbox) + [primary]
                else
                  res == Response(200, Ok) &&
                  outbox == old(outbox) + [primary] +
                            (if AutoreplyEnabled(cfg) then [AutoreplyMail(body.name.value, body.email.value, cfg)] else [])
    {
      if body.Malformed? {
        // `req.json()` threw: the outer catch answers 500
        return Response(500, Error(InternalError));
      }
      if !HasRequiredFields(body) {
        return Response(400, Error(MissingFieldsError));
      }
      var name, email, message := body.name.value, body.email.value, body.message.value;
      if !Truthy(cfg.apiKey) {
        res := SaveLocally(Entry(name, email, message, io.now, true), io);
        return;
      }
      var sent := Send(PrimaryMail(name, email, message, cfg), io.sendOk);
      if !sent {
        // the provider error propagates to the outer catch; no local fallback
        return Response(500, Error(InternalError));
      }
      if AutoreplyEnabled(cfg) {
        // a failed autoreply is logged and ignored
        var _ := Send(AutoreplyMail(name, email, cfg), io.autoreplyOk);
      }
      res := Response(200, Ok);
    }
  }

  /** A fresh store after a valid fallback request holds exactly the new
      entry, whether the old file was missing, empty or corrupt. */
  method CorruptStoreExample() returns (res: Response, stored: StoreFile)
    ensures res == Response(200, OkSavedLocal)
    ensures stored == Entries([Entry("Ada", "ada@example.com", "Hi", "2024-01-01T00:00:00.000Z", true)])
  {
    var endpoint := new ContactEndpoint(Corrupt);
    var cfg := Config(None, None, None, None, None, None);
    var io := Io(true, true, true, true, "2024-01-01T00:00:00.000Z");
    res := endpoint.Post(Fields(Some("Ada"), Some("ada@example.com"), Some("Hi")), cfg, io);
    stored := endpoint.store;
  }

  /** Submissions are not deduplicated: the same payload twice gives two entries. */
  method NoDeduplicationExample() returns (count: nat)
    ensures count == 2
  {
    var endpoint := new ContactEndpoint(NoFile);
    var cfg := Config(None, None, None, None, None, None);
    var io := Io(true, true, true, true, "t");
    var body := Fields(Some("Ada"), Some("ada@example.com"), Some("Hi"));
    var _ := endpoint.Post(body, cfg, io);
    var _ := endpoint.Post(body, cfg, io);
    count := |endpoint.store.entries|;
  }

  /** An empty name is rejected with 400 and leaves the store and outbox as they were. */
  method EmptyNameExample() returns (res: Response, stored: StoreFile, sent: nat)
    ensures res == Response(400, Error(MissingFieldsError))
    ensures stored == NoFile && sent == 0
  {
    var endpoint := new ContactEndpoint(NoFile);
    var cfg := Config(Some("key"), None, None, None, Some("1"), None);
    var io := Io(true, true, true, true, "t");
    res := endpoint.Post(Fields(Some(""), Some("b@x.com"), Some("hi")), cfg, io);
    stored := endpoint.store;
    sent := |endpoint.outbox|;
  }
}
