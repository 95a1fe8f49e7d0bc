/** What the dispatch engine sees of the outside world: the REST backend's
    URLs and answers, the outreach ledger, the Gmail send call, the random
    delay between sends and the configured contact-method codes. Every
    external call is an input (a map or an oracle function) and every call
    made is recorded as an `Effect`, so that the order of calls is part of
    what the operations return. */
module Backend {
  import opened Text
  import opened Values

  // ---------------------------------------------------------------- contact-method codes

  datatype Channel = Email | LinkedIn

  /** The contact-method codes the configuration assigns. */
  function ConfigCode(c: Channel): int {
    match c
    case Email => 2
    case LinkedIn => 1
  }

  /** The codes the HTTP entry point routes on: 2 is e-mail, 4 is LinkedIn. */
  function RouteCode(code: Value): (r: Option<Channel>)
    ensures r == Some(Email) <==> code == Int(2)
    ensures r == Some(LinkedIn) <==> code == Int(4)
    ensures r == None <==> code != Int(2) && code != Int(4)
  {
    if code == Int(2) then Some(Email)
    else if code == Int(4) then Some(LinkedIn)
    else None
  }

  /** The two tables disagree: the configured LinkedIn code is not routed at all,
      while the configured e-mail code routes to e-mail. */
  lemma CodesDisagree()
    ensures RouteCode(Int(ConfigCode(LinkedIn))) == None
    ensures RouteCode(Int(ConfigCode(Email))) == Some(Email)
    ensures forall v :: RouteCode(v) == Some(LinkedIn) ==> v != Int(ConfigCode(LinkedIn))
  {
  }

  // ---------------------------------------------------------------- the world

  /** One call of the ledger's logging helper. `sender` is absent when the
      caller does not pass a sender address. */
  datatype LogEntry = LogEntry(
    campaign: int, contact: int, channel: string,
    subject: Value, body: string, sender: Option<string>)

  /** The answers of everything outside the engine.
      `base`: the backend's base URL without trailing slashes;
      `http`: the decoded JSON each GET returns (a URL that is absent fails);
      `contacted`: the ledger's dedup check for (campaign, contact, channel);
      `mail`: whether the Gmail send of (to, subject, html body) succeeds.
      Whether logging an entry raises is not part of the world: every caller
      swallows that exception, so it changes nothing the engine does. */
  datatype World = World(
    base: string,
    http: map<string, Value>,
    contacted: (int, int, string) -> Result<bool>,
    mail: (string, Value, string) -> bool)

  /** The calls the engine makes, in the order it makes them. */
  datatype Effect =
    | Fetched(url: string)
    | CheckedLedger(campaign: int, contact: int, channel: string)
    | Mailed(to: string, subject: Value, body: string)
    | Logged(entry: LogEntry)
    | Slept(ms: int)
    | Visited(url: string)
    | SessionSaved
    | ClickedMessage
    | Typed(text: string)
    | PressedSend
    | DispatchedEmail(emailSubject: Value, emailBody: Value, to: string)
    | DispatchedLinkedIn(url: string, text: string, actuallySend: bool)

  /** The kinds of call that are counted. */
  datatype Kind = MailCall | LogCall | SleepCall | FetchCall | DispatchCall

  predicate OfKind(e: Effect, k: Kind) {
    match k
    case MailCall => e.Mailed?
    case LogCall => e.Logged?
    case SleepCall => e.Slept?
    case FetchCall => e.Fetched?
    case DispatchCall => e.DispatchedEmail? || e.DispatchedLinkedIn?
  }

  /** How many of `effects` are calls of kind `k`. */
  function Count(effects: seq<Effect>, k: Kind): (n: nat)
    ensures n <= |effects|
    ensures n == 0 <==> forall i :: 0 <= i < |effects| ==> !OfKind(effects[i], k)
  {
    if effects == [] then 0 else (if OfKind(effects[0], k) then 1 else 0) + Count(effects[1..], k)
  }

  lemma {:induction false} CountAppend(a: seq<Effect>, b: seq<Effect>, k: Kind)
    ensures Count(a + b, k) == Count(a, k) + Count(b, k)
    decreases |a|
  {
    if a != [] {
      assert (a + b)[1..] == a[1..] + b;
      CountAppend(a[1..], b, k);
    } else {
      assert a + b == b;
    }
  }

  /** A GET of `url`: its decoded JSON, or the request's failure. A non-string
      URL is turned into text first, as `requests` does. */
  function Fetch(w: World, url: Value): (r: Result<Value>)
    ensures r.Ok? <==> Shown(url) in w.http
    ensures r.Ok? ==> r.value == w.http[Shown(url)]
    ensures r.Raised? ==> r.error == HttpError
  {
    if Shown(url) in w.http then Ok(w.http[Shown(url)]) else Raised(HttpError)
  }

  function CampaignUrl(w: World, campaign: Value): string {
    w.base + "/outreach/campaigns/" + Shown(campaign) + "/"
  }

  function ContactUrl(w: World, contact: Value): string {
    w.base + "/outreach/contacts/" + Shown(contact) + "/"
  }

  function ContactMethodsUrl(w: World, campaign: Value, code: Value): string {
    w.base + "/outreach/campaign-contact-methods/?campaign=" + Shown(campaign)
      + "&contact_method=" + Shown(code)
  }

  /** `get_campaign(id)`: the JSON at the campaign's URL, or an HTTP error. */
  function GetCampaign(w: World, campaign: Value): (r: Result<Value>)
    ensures r.Ok? <==> CampaignUrl(w, campaign) in w.http
    ensures r.Ok? ==> r.value == w.http[CampaignUrl(w, campaign)]
    ensures r.Raised? ==> r.error == HttpError
  {
    Fetch(w, Str(CampaignUrl(w, campaign)))
  }

  /** `get_contact(id)`: the JSON at the contact's URL, or an HTTP error. */
  function GetContact(w: World, contact: Value): (r: Result<Value>)
    ensures r.Ok? <==> ContactUrl(w, contact) in w.http
    ensures r.Ok? ==> r.value == w.http[ContactUrl(w, contact)]
    ensures r.Raised? ==> r.error == HttpError
  {
    Fetch(w, Str(ContactUrl(w, contact)))
  }

  /** Text between a common prefix and suffix tells the strings apart. */
  lemma FramedDiffer(pre: string, x: string, y: string, post: string)
    requires x != y
    ensures pre + x + post != pre + y + post
  {
    if |x| != |y| {
      assert |pre + x + post| != |pre + y + post|;
    } else {
      var i :| 0 <= i < |x| && x[i] != y[i];
      assert (pre + x + post)[|pre| + i] == x[i];
      assert (pre + y + post)[|pre| + i] == y[i];
    }
  }

  /** Each id has its own URL, and a campaign URL is never a contact URL, so
      the two lookups never read each other's answers. */
  lemma UrlsDistinct(w: World, a: Value, b: Value)
    ensures Shown(a) != Shown(b) ==> CampaignUrl(w, a) != CampaignUrl(w, b)
    ensures Shown(a) != Shown(b) ==> ContactUrl(w, a) != ContactUrl(w, b)
    ensures CampaignUrl(w, a) != ContactUrl(w, b)
  {
    if Shown(a) != Shown(b) {
      FramedDiffer(w.base + "/outreach/campaigns/", Shown(a), Shown(b), "/");
      FramedDiffer(w.base + "/outreach/contacts/", Shown(a), Shown(b), "/");
    }
    var k := |w.base| + 11;
    assert CampaignUrl(w, a)[k] == 'a';
    assert ContactUrl(w, b)[k] == 'o';
  }

  // ---------------------------------------------------------------- jitter

  /** The pause between two sends: `random.randint(lo, hi)` milliseconds, with
      the random choice given as `draw`. `randint` refuses an empty range and
      `time.sleep` a negative pause, both with a ValueError. */
  function JitterDelay(lo: int, hi: int, draw: nat): (r: Result<int>)
    ensures r.Ok? ==> lo <= r.value <= hi && r.value >= 0
    ensures r.Raised? ==> r.error == ValueError
    ensures r.Raised? <==> lo > hi || lo + draw % (hi - lo + 1) < 0
  {
    if lo > hi then Raised(ValueError)
    else
      var ms := lo + draw % (hi - lo + 1);
      if ms < 0 then Raised(ValueError) else Ok(ms)
  }

  /** Every pause in the configured range can be chosen. */
  lemma JitterCovers(lo: int, hi: int, ms: int)
    requires lo <= ms <= hi && ms >= 0
    ensures JitterDelay(lo, hi, ms - lo) == Ok(ms)
  {
    assert (ms - lo) % (hi - lo + 1) == ms - lo;
  }
}
