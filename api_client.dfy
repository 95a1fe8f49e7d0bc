/** The backend client: the paginated contact-method listing and the two
    readings of a campaign record (the e-mail subject and HTML body, and the
    plain LinkedIn text). */
module ApiClient {
  import opened Text
  import opened Values
  import opened Backend

  // ---------------------------------------------------------------- pagination

  /** `page.get("results", [])` handed to `list.extend`: a missing key adds
      nothing, a list adds its items, a string its characters; any other value
      is not iterable. */
  function PageResults(page: Value): (r: Result<seq<Value>>)
    ensures r.Ok? ==> page.Dict?
    ensures !page.Dict? ==> r == Raised(AttributeError)
    ensures page.Dict? && "results" !in page.fields ==> r == Ok([])
  {
    if !page.Dict? then Raised(AttributeError)
    else if "results" !in page.fields then Ok([])
    else match page.fields["results"]
      case List(items, _) => Ok(items)
      case Str(s) => Ok(seq(|s|, i requires 0 <= i < |s| => Str([s[i]])))
      case _ => Raised(TypeError)
  }

  /** How a crawl of the `next` links ends: with the collected results, with
      the first failure, or (for a chain longer than the fuel) undecided. */
  datatype Crawl = Done(items: seq<Value>) | Failed(error: Error) | Exhausted

  function Prepend(items: seq<Value>, c: Crawl): (r: Crawl) {
    if c.Done? then Done(items + c.items) else c
  }

  lemma PrependTwice(a: seq<Value>, b: seq<Value>, c: Crawl)
    ensures Prepend(a, Prepend(b, c)) == Prepend(a + b, c)
  {
    if c.Done? {
      assert a + (b + c.items) == (a + b) + c.items;
    }
  }

  /** What following `next` links from `url` produces, within `fuel` fetches. */
  function Crawled(w: World, url: Value, fuel: nat): Crawl
    decreases fuel
  {
    if !Truthy(url) then Done([])
    else if fuel == 0 then Exhausted
    else match Fetch(w, url)
      case Raised(e) => Failed(e)
      case Ok(page) =>
        match PageResults(page)
        case Raised(e) => Failed(e)
        case Ok(items) => Prepend(items, Crawled(w, Get(page.fields, "next"), fuel - 1))
  }

  function CrawlResult(c: Crawl): Result<seq<Value>>
    requires !c.Exhausted?
  {
    if c.Done? then Ok(c.items) else Raised(c.error)
  }

  /** A crawl that finishes within some fuel gives the same answer with more. */
  lemma {:induction false} CrawledFuel(w: World, url: Value, n: nat, m: nat)
    requires n <= m && !Crawled(w, url, n).Exhausted?
    ensures Crawled(w, url, m) == Crawled(w, url, n)
    decreases n
  {
    if Truthy(url) {
      match Fetch(w, url)
      case Raised(_) =>
      case Ok(page) =>
        match PageResults(page)
        case Raised(_) =>
        case Ok(items) =>
          var next := Get(page.fields, "next");
          assert !Crawled(w, next, n - 1).Exhausted?;
          CrawledFuel(w, next, n - 1, m - 1);
    }
  }

  /** `get_campaign_contacts(campaign, code)`: follow `next` while it is
      truthy and concatenate every page's results. The source loops forever on
      a cyclic chain; `fuel` is a bound on the chain's length that the caller
      vouches for. */
  method GetCampaignContacts(w: World, campaign: Value, code: Value, ghost fuel: nat)
    returns (r: Result<seq<Value>>)
    requires !Crawled(w, Str(ContactMethodsUrl(w, campaign, code)), fuel).Exhausted?
    ensures r == CrawlResult(Crawled(w, Str(ContactMethodsUrl(w, campaign, code)), fuel))
  {
    ghost var start := Str(ContactMethodsUrl(w, campaign, code));
    var results: seq<Value> := [];
    var url := Str(ContactMethodsUrl(w, campaign, code));
    ghost var left := fuel;
    while Truthy(url)
      invariant !Crawled(w, url, left).Exhausted?
      invariant Crawled(w, start, fuel) == Prepend(results, Crawled(w, url, left))
      decreases left
    {
      var page := Fetch(w, url);
      if page.Raised? {
        return Raised(page.error);
      }
      var items := PageResults(page.value);
      if items.Raised? {
        return Raised(items.error);
      }
      ghost var next := Get(page.value.fields, "next");
      assert Crawled(w, url, left) == Prepend(items.value, Crawled(w, next, left - 1));
      PrependTwice(results, items.value, Crawled(w, next, left - 1));
      results := results + items.value;
      url := Get(page.value.fields, "next");
      left := left - 1;
    }
    assert results + [] == results;
    return Ok(results);
  }

  /** A chain of pages: each URL is served, each page's `next` is the following
      URL, and the last page's `next` is falsy. */
  predicate Chain(w: World, urls: seq<string>) {
    && |urls| > 0
    && (forall i :: 0 <= i < |urls| ==> urls[i] != [] && urls[i] in w.http && PageResults(w.http[urls[i]]).Ok?)
    && (forall i :: 0 <= i < |urls| - 1 ==> Get(w.http[urls[i]].fields, "next") == Str(urls[i + 1]))
    && !Truthy(Get(w.http[urls[|urls| - 1]].fields, "next"))
  }

  /** The results of a chain's pages, in order. */
  function Collected(w: World, urls: seq<string>): seq<Value>
    requires forall i :: 0 <= i < |urls| ==> urls[i] in w.http && PageResults(w.http[urls[i]]).Ok?
  {
    if urls == [] then [] else PageResults(w.http[urls[0]]).value + Collected(w, urls[1..])
  }

  /** Crawling a chain collects every page's results in fetch order; a page
      without `results` contributes nothing and its `next` is still followed. */
  lemma {:induction false} CrawledChain(w: World, urls: seq<string>)
    requires Chain(w, urls)
    ensures Crawled(w, Str(urls[0]), |urls|) == Done(Collected(w, urls))
    decreases |urls|
  {
    var page := w.http[urls[0]];
    assert Fetch(w, Str(urls[0])) == Ok(page);
    if |urls| == 1 {
      assert Crawled(w, Get(page.fields, "next"), 0) == Done([]);
    } else {
      assert Chain(w, urls[1..]);
      CrawledChain(w, urls[1..]);
      assert Get(page.fields, "next") == Str(urls[1]);
    }
  }

  // ---------------------------------------------------------------- e-mail content

  datatype EmailContent = EmailContent(subject: Value, html: string)

  /** The check that decides whether a body is already a full HTML document. */
  predicate IsDocument(body: string) {
    "<!doctype" <= Lower(Strip(body))
  }

  /** The fallback wrapping of a body that is not a full HTML document. */
  function Wrapped(body: string): string {
    "<html><body><p>" + body + "</p></body></html>"
  }

  /** The subject of a campaign record: `email_subject`, else `name`, else
      the fixed fallback; never falsy. */
  function Subject(data: Record): (v: Value)
    ensures Truthy(v)
    ensures Truthy(Get(data, "email_subject")) ==> v == Get(data, "email_subject")
    ensures !Truthy(Get(data, "email_subject")) && Truthy(Get(data, "name")) ==> v == Get(data, "name")
    ensures !Truthy(Get(data, "email_subject")) && !Truthy(Get(data, "name")) ==> v == Str("Outreach Campaign")
  {
    Or(Or(Get(data, "email_subject"), Get(data, "name")), Str("Outreach Campaign"))
  }

  /** The subject and body of a campaign record. */
  function EmailContentOf(data: Record): (r: Result<EmailContent>)
    ensures r.Raised? <==> Truthy(Get(data, "email_body")) && !Get(data, "email_body").Str?
    ensures r.Raised? ==> r.error == AttributeError
    ensures r.Ok? ==> r.value.subject == Subject(data)
  {
    var body := Or(Get(data, "email_body"), Str(""));
    if !body.Str? then Raised(AttributeError)
    else if IsDocument(body.s) then Ok(EmailContent(Subject(data), body.s))
    else Ok(EmailContent(Subject(data), Wrapped(body.s)))
  }

  /** The text `EmailContentOf` starts from: the `email_body` field, or "" when
      it is falsy. */
  function BodyText(data: Record): string {
    var body := Get(data, "email_body");
    if Truthy(body) && body.Str? then body.s else ""
  }

  /** A text that starts with "<h" is not a document: whatever trailing
      whitespace is stripped, the second character stays an "h". */
  lemma HtmlTagIsNotDocument(t: string)
    requires |t| >= 2 && t[0] == '<' && t[1] == 'h'
    ensures !IsDocument(t)
  {
    TrimKept(t, IsSpace, 0);
    TrimKept(t, IsSpace, 1);
    SecondIsNotBang(Lower(Strip(t)));
  }

  lemma SecondIsNotBang(l: string)
    requires |l| >= 2 && l[1] == 'h'
    ensures !("<!doctype" <= l)
  {
    assert "<!doctype"[1] == '!';
  }

  /** A wrapped body does not pass for a document. */
  lemma WrappedIsNotDocument(body: string)
    ensures !IsDocument(Wrapped(body))
  {
    var w := Wrapped(body);
    assert w[0] == '<' && w[1] == 'h';
    HtmlTagIsNotDocument(w);
  }

  /** The body is wrapped exactly when it is not already a document: the
      result is either the body itself or the wrapped body, never both. */
  lemma WrapIffNotDocument(data: Record)
    requires EmailContentOf(data).Ok?
    ensures EmailContentOf(data).value.html == Wrapped(BodyText(data)) <==> !IsDocument(BodyText(data))
    ensures EmailContentOf(data).value.html == BodyText(data) <==> IsDocument(BodyText(data))
  {
    var b := BodyText(data);
    if IsDocument(b) {
      assert |Wrapped(b)| > |b|;
    } else {
      WrappedIsNotDocument(b);
    }
  }

  /** An empty or missing body becomes an empty paragraph. */
  lemma EmptyBodyParagraph(data: Record)
    requires !Truthy(Get(data, "email_body"))
    ensures EmailContentOf(data).value.html == Wrapped("")
  {
    var body: string := [];
    assert Strip(body) == [];
    assert !IsDocument(body);
    assert Or(Get(data, "email_body"), Str("")) == Str(body);
  }

  /** A body that starts with "<html>" is wrapped all the same: only a
      doctype marks a full document. */
  lemma HtmlBodyStillWrapped(data: Record, b: string)
    requires Get(data, "email_body") == Str(b) && "<html>" <= b
    ensures EmailContentOf(data).value.html == Wrapped(b)
  {
    assert b[0] == '<' && b[1] == 'h';
    HtmlTagIsNotDocument(b);
  }

  /** `get_campaign_email_content(campaign)`: fetch the campaign and read its
      subject and body. */
  function GetCampaignEmailContent(w: World, campaign: Value): (r: Result<EmailContent>)
    ensures GetCampaign(w, campaign).Raised? ==> r == Raised(HttpError)
    ensures GetCampaign(w, campaign).Ok? && !GetCampaign(w, campaign).value.Dict? ==> r == Raised(AttributeError)
    ensures GetCampaign(w, campaign).Ok? && GetCampaign(w, campaign).value.Dict? ==>
      r == EmailContentOf(GetCampaign(w, campaign).value.fields)
  {
    var data :- GetCampaign(w, campaign);
    var rec :- AsRecord(data);
    EmailContentOf(rec)
  }

  // ---------------------------------------------------------------- LinkedIn text

  /** The fields a LinkedIn text is taken from, in the order they are tried. */
  const MessageKeys: seq<string> := ["linkedin_message", "message", "linkedin_body", "body_text"]

  const DefaultMessage: string :=
    "Hi there \U{2014} I'm reaching out from "
    + "CarbonSustain to share a quick update "
    + "on our AI-driven carbon accounting "
    + "platform. Would love to connect!"

  /** A field value that can serve as the message: a string that is not blank. */
  predicate Usable(v: Value) {
    v.Str? && Strip(v.s) != []
  }

  /** The first usable field among `keys`, stripped. */
  function FirstUsable(data: Record, keys: seq<string>): (r: Option<string>)
    ensures r.None? <==> forall i :: 0 <= i < |keys| ==> !Usable(Get(data, keys[i]))
    ensures r.Some? ==> r.value != [] && Trimmed(r.value)
  {
    if keys == [] then None
    else if Usable(Get(data, keys[0])) then
      StripTrimmed(Get(data, keys[0]).s);
      Some(Strip(Get(data, keys[0]).s))
    else FirstUsable(data, keys[1..])
  }

  /** The field `FirstUsable` picks is the first usable one. */
  lemma {:induction false} FirstUsableAt(data: Record, keys: seq<string>, i: nat)
    requires i < |keys| && Usable(Get(data, keys[i]))
    requires forall j :: 0 <= j < i ==> !Usable(Get(data, keys[j]))
    ensures FirstUsable(data, keys) == Some(Strip(Get(data, keys[i]).s))
    decreases i
  {
    if i > 0 {
      assert !Usable(Get(data, keys[0]));
      FirstUsableAt(data, keys[1..], i - 1);
    }
  }

  /** `re.sub(r"<[^>]+>", " ", s)`: each tag, a "<" followed by at least one
      character other than ">" and then ">", becomes one space. Matches are
      found left to right without overlapping. No match is left in `r`, and a
      text without "<" comes back unchanged. */
  function StripTags(s: string): (r: string)
    ensures NoTag(r)
    ensures '<' !in s ==> r == s
    ensures '>' !in s ==> '>' !in r
    ensures s != [] && s[0] != '<' ==> r != [] && r[0] == s[0]
    decreases |s|
  {
    if s == [] then []
    else if s[0] == '<' && TagEnd(s) > 0 then
      var rest := StripTags(s[TagEnd(s) + 1..]);
      NoTagCons(' ', rest);
      " " + rest
    else
      var rest := StripTags(s[1..]);
      NoTagCons(s[0], rest);
      [s[0]] + rest
  }

  /** One character put in front of a text without a tag starts none, unless
      it is a "<" that a later ">" closes. */
  lemma NoTagCons(c: char, rest: string)
    requires NoTag(rest)
    requires c == '<' ==> (rest != [] && rest[0] == '>') || '>' !in rest
    ensures NoTag([c] + rest)
  {
    var t := [c] + rest;
    forall i | 0 <= i < |t| && t[i] == '<'
      ensures (i + 1 < |t| && t[i + 1] == '>') || '>' !in t[i + 1..]
    {
      if i > 0 {
        assert t[i] == rest[i - 1] && t[i + 1..] == rest[i..];
      } else {
        assert t[1..] == rest;
      }
    }
  }

  /** No `<[^>]+>` match: every "<" is followed at once by ">", or by no ">"
      at all. */
  predicate NoTag(t: string) {
    forall i :: 0 <= i < |t| && t[i] == '<' ==> (i + 1 < |t| && t[i + 1] == '>') || '>' !in t[i + 1..]
  }

  /** The index of the ">" that closes a tag opened at `s[0]`, or 0 when none
      closes it (the character after "<" must not be ">" itself). */
  function TagEnd(s: string): (k: nat)
    requires s != []
    ensures k > 0 ==> k < |s| && s[k] == '>' && '>' !in s[1..k] && k >= 2
    ensures k == 0 ==> '>' !in s[1..] || s[1] == '>'
  {
    var t := s[1..];
    if '>' in t && IndexOf(t, '>') > 0 then
      assert s[1..1 + IndexOf(t, '>')] == t[..IndexOf(t, '>')];
      1 + IndexOf(t, '>')
    else 0
  }

  /** `re.sub(r"\s+", " ", s)`: each run of whitespace becomes one space. */
  function Collapse(s: string): (r: string)
    decreases |s|
  {
    if s == [] then []
    else if IsSpace(s[0]) then " " + Collapse(TrimStart(s, IsSpace))
    else [s[0]] + Collapse(s[1..])
  }

  /** No two adjacent whitespace characters. */
  predicate SingleSpaced(t: string) {
    forall i :: 0 <= i < |t| - 1 ==> !(IsSpace(t[i]) && IsSpace(t[i + 1]))
  }

  /** After a collapse no two whitespace characters are adjacent, and a
      non-empty input that starts with a non-space keeps it first. */
  lemma {:induction false} CollapseSingleSpaced(s: string)
    ensures SingleSpaced(Collapse(s))
    ensures s != [] ==> Collapse(s) != [] && (IsSpace(Collapse(s)[0]) <==> IsSpace(s[0]))
    decreases |s|
  {
    if s == [] {
    } else if IsSpace(s[0]) {
      var t := TrimStart(s, IsSpace);
      CollapseSingleSpaced(t);
      assert |t| < |s|;
    } else {
      CollapseSingleSpaced(s[1..]);
    }
  }

  /** Every slice of a single-spaced text is single-spaced. */
  lemma SliceSingleSpaced(t: string, i: nat, j: nat)
    requires i <= j <= |t| && SingleSpaced(t)
    ensures SingleSpaced(t[i..j])
  {
    forall k | 0 <= k < j - i - 1
      ensures !(IsSpace(t[i..j][k]) && IsSpace(t[i..j][k + 1]))
    {
      assert t[i..j][k] == t[i + k] && t[i..j][k + 1] == t[i + k + 1];
    }
  }

  /** Stripping keeps a text single-spaced. */
  lemma StripSingleSpaced(c: string)
    requires SingleSpaced(c)
    ensures SingleSpaced(Strip(c))
  {
    TrimSlice(c, IsSpace);
    SliceSingleSpaced(c, TrimOffset(c, IsSpace), TrimOffset(c, IsSpace) + |Strip(c)|);
  }

  /** The text derived from an e-mail body: tags removed, whitespace
      collapsed, ends trimmed. */
  function Derived(body: string): string {
    Strip(Collapse(StripTags(body)))
  }

  /** The derived text has no whitespace at its ends and no two whitespace
      characters next to each other. */
  lemma DerivedShape(body: string)
    ensures Trimmed(Derived(body)) && SingleSpaced(Derived(body))
  {
    var c := Collapse(StripTags(body));
    CollapseSingleSpaced(StripTags(body));
    StripSingleSpaced(c);
    StripTrimmed(c);
  }

  lemma DefaultTrimmed()
    ensures DefaultMessage != [] && Trimmed(DefaultMessage)
  {
    assert DefaultMessage[0] == 'H';
    assert DefaultMessage[|DefaultMessage| - 1] == '!';
  }

  /** The message text of a campaign record. */
  function MessageTextOf(data: Record): (r: string)
    ensures r != [] && Trimmed(r)
    ensures FirstUsable(data, MessageKeys).Some? ==> r == FirstUsable(data, MessageKeys).value
    ensures FirstUsable(data, MessageKeys).None? && Usable(Get(data, "email_body")) && Derived(Get(data, "email_body").s) != [] ==>
      r == Derived(Get(data, "email_body").s) && SingleSpaced(r)
    ensures FirstUsable(data, MessageKeys).None? && !(Usable(Get(data, "email_body")) && Derived(Get(data, "email_body").s) != []) ==>
      r == DefaultMessage
  {
    var first := FirstUsable(data, MessageKeys);
    if first.Some? then first.value
    else
      var body := Or(Get(data, "email_body"), Str(""));
      if body.Str? && Strip(body.s) != [] && Derived(body.s) != [] then
        DerivedShape(body.s);
        Derived(body.s)
      else
        DefaultTrimmed();
        DefaultMessage
  }

  /** `get_campaign_message_text(campaign)` */
  function GetCampaignMessageText(w: World, campaign: Value): (r: Result<string>)
    ensures GetCampaign(w, campaign).Raised? ==> r == Raised(HttpError)
    ensures GetCampaign(w, campaign).Ok? && !GetCampaign(w, campaign).value.Dict? ==> r == Raised(AttributeError)
    ensures GetCampaign(w, campaign).Ok? && GetCampaign(w, campaign).value.Dict? ==>
      r == Ok(MessageTextOf(GetCampaign(w, campaign).value.fields))
    ensures r.Ok? ==> r.value != []
  {
    var data :- GetCampaign(w, campaign);
    var rec :- AsRecord(data);
    Ok(MessageTextOf(rec))
  }
}
