/** The LinkedIn channel: the login check, the profile URL and first name a
    message is addressed with, the message text, the browser session that
    types and sends it, and the campaign loop. The browser is an input: what
    each navigation, login wait and element search observes. */
module LinkedInSender {
  import opened Text
  import opened Values
  import opened Backend
  import opened ApiClient

  // ---------------------------------------------------------------- login check

  /** A browser page as the login check sees it: its URL and, for each CSS
      selector, how many elements match it (or the failure of counting them). */
  datatype Page = Page(url: string, count: string -> Result<nat>)

  /** The elements that only a logged-in LinkedIn page shows, in the order
      they are looked for. */
  const Indicators: seq<string> := [
    "nav.global-nav",
    "div[data-test-id='nav-global-nav']",
    "div[data-test-app-aware-link='feed']",
    "button[aria-label*='Messaging']"]

  /** The indicator scan over `sels`: true at the first selector with a match,
      the failure of a count that raises first, false when nothing matches. */
  function Scan(p: Page, sels: seq<string>): (r: Result<bool>)
    ensures r == Ok(false) <==> forall i :: 0 <= i < |sels| ==> p.count(sels[i]) == Ok(0)
    ensures r == Ok(true) ==> exists i :: 0 <= i < |sels| && p.count(sels[i]).Ok? && p.count(sels[i]).value > 0
    ensures r.Raised? ==> exists i :: 0 <= i < |sels| && p.count(sels[i]).Raised?
  {
    if sels == [] then Ok(false)
    else
      var c := p.count(sels[0]);
      if c.Raised? then Raised(c.error)
      else if c.value > 0 then Ok(true)
      else
        var r := Scan(p, sels[1..]);
        assert forall i :: 1 <= i < |sels| ==> sels[i] == sels[1..][i - 1];
        r
  }

  /** The first selector with a match decides, whatever follows it. */
  lemma {:induction false} ScanFirst(p: Page, sels: seq<string>, i: nat)
    requires i < |sels| && p.count(sels[i]).Ok? && p.count(sels[i]).value > 0
    requires forall j :: 0 <= j < i ==> p.count(sels[j]) == Ok(0)
    ensures Scan(p, sels) == Ok(true)
    decreases i
  {
    if i > 0 {
      assert p.count(sels[0]) == Ok(0);
      ScanFirst(p, sels[1..], i - 1);
    }
  }

  /** The URL rule, applied when no indicator is present. */
  function UrlSaysLoggedIn(url: string): bool {
    var u := Lower(url);
    if Contains(u, "login") || Contains(u, "challenge") then false
    else Contains(u, "/in/") && !Contains(u, "login")
  }

  /** `_is_logged_in(page)`: any indicator means logged in, before the URL is
      looked at; without one, a login or challenge URL means logged out even
      on a profile path, and otherwise a profile path means logged in. A
      failing check counts as logged out. */
  function IsLoggedIn(p: Page): (r: bool)
    ensures Scan(p, Indicators) == Ok(true) ==> r
    ensures Scan(p, Indicators).Raised? ==> !r
    ensures Scan(p, Indicators) == Ok(false) ==>
      (r <==> !Contains(Lower(p.url), "login") && !Contains(Lower(p.url), "challenge") && Contains(Lower(p.url), "/in/"))
  {
    match Scan(p, Indicators)
    case Raised(_) => false
    case Ok(found) => found || UrlSaysLoggedIn(p.url)
  }

  /** An indicator found before any count fails means logged in, on any URL. */
  lemma IndicatorWins(p: Page, i: nat)
    requires i < |Indicators| && p.count(Indicators[i]).Ok? && p.count(Indicators[i]).value > 0
    requires forall j :: 0 <= j < i ==> p.count(Indicators[j]) == Ok(0)
    ensures IsLoggedIn(p)
  {
    ScanFirst(p, Indicators, i);
  }

  // ---------------------------------------------------------------- first name from the URL

  /** The length of a match of `https?://[^/]+/` at the front of `s`, if there is one. */
  function SchemeMatch(s: string): (r: Option<nat>)
    ensures r.Some? ==> 0 < r.value <= |s|
    ensures r.Some? ==> s[0] == 'h'
  {
    var n := if "https://" <= s then 8 else if "http://" <= s then 7 else 0;
    if n == 0 then None
    else
      var host := TakeUntil(s[n..], IsSlash);
      if host != [] && n + |host| < |s| then Some(n + |host| + 1) else None
  }

  /** `re.sub(r"https?://[^/]+/", "", s)`: every match, left to right, removed. */
  function RemoveHosts(s: string): string
    decreases |s|
  {
    if s == [] then []
    else match SchemeMatch(s)
      case Some(n) => RemoveHosts(s[n..])
      case None => [s[0]] + RemoveHosts(s[1..])
  }

  /** Without an `h` there is nothing to remove. */
  lemma {:induction false} RemoveHostsNone(s: string)
    requires 'h' !in s
    ensures RemoveHosts(s) == s
    decreases |s|
  {
    if s != [] {
      RemoveHostsNone(s[1..]);
    }
  }

  /** The characters `[-_.+]` a handle is cut at. */
  predicate IsDelimiter(c: char) {
    c == '-' || c == '_' || c == '.' || c == '+'
  }

  /** The profile handle: the segment after a leading `in/`, else the first segment. */
  function Handle(url: string): string {
    var parts := Split(Trim(RemoveHosts(url), IsSlash), '/');
    if parts[0] == "in" && |parts| > 1 then parts[1] else parts[0]
  }

  /** The first-name token of a handle: up to the first delimiter, digits removed, stripped. */
  function Token(handle: string): (t: string)
    ensures forall i :: 0 <= i < |t| ==> !IsDigit(t[i]) && !IsDelimiter(t[i])
    ensures Trimmed(t)
  {
    var cut := TakeUntil(handle, IsDelimiter);
    var plain := RemoveDigits(cut);
    var t := Strip(plain);
    forall i | 0 <= i < |t| ensures !IsDigit(t[i]) && !IsDelimiter(t[i]) {
      TrimKeeps(plain, IsSpace, t[i]);
    }
    StripTrimmed(plain);
    t
  }

  /** Upper- and lower-casing keep letters letters and leave everything else alone. */
  lemma CaseOfChar(c: char)
    ensures IsLower(c) || IsUpper(c) ==> IsUpper(UpperChar(c)) || IsLower(UpperChar(c))
    ensures IsLower(c) || IsUpper(c) ==> IsUpper(LowerChar(c)) || IsLower(LowerChar(c))
    ensures !IsLower(c) && !IsUpper(c) ==> UpperChar(c) == c && LowerChar(c) == c
  {
  }

  /** Capitalizing keeps a word free of digits, delimiters and outer whitespace. */
  lemma CapitalizeToken(t: string)
    requires forall i :: 0 <= i < |t| ==> !IsDigit(t[i]) && !IsDelimiter(t[i])
    requires Trimmed(t)
    ensures var r := Capitalize(t);
      IsCapitalized(r) && Trimmed(r) && forall i :: 0 <= i < |r| ==> !IsDigit(r[i]) && !IsDelimiter(r[i])
  {
    var r := Capitalize(t);
    CapitalizeShape(t);
    if t != [] {
      assert r[0] == UpperChar(t[0]);
      assert r[1..] == Lower(t[1..]);
    }
    forall i | 0 <= i < |r| ensures !IsDelimiter(r[i]) {
      CaseOfChar(t[i]);
      if i > 0 {
        assert r[i] == Lower(t[1..])[i - 1];
      }
    }
  }

  /** `_extract_first_name_from_url(url)`: either the greeting fallback "there"
      or a capitalized word without digits or delimiters. */
  function ExtractFirstName(url: string): (r: string)
    ensures r == "there" || (r != [] && IsCapitalized(r) && Trimmed(r)
      && forall i :: 0 <= i < |r| ==> !IsDigit(r[i]) && !IsDelimiter(r[i]))
  {
    var t := Token(Handle(url));
    if t == [] then "there"
    else
      CapitalizeToken(t);
      Capitalize(t)
  }

  /** The example profile URL of the module's own entry point. */
  function PaulUrl(): string {
    "https://" + ("www.linkedin.com" + "/in/paul-bryzek/")
  }

  lemma PaulScheme()
    ensures SchemeMatch(PaulUrl()) == Some(25)
  {
    var url, host := PaulUrl(), "www.linkedin.com" + "/in/paul-bryzek/";
    assert url[8..] == host;
    TakeUntilAt("www.linkedin.com", "/in/paul-bryzek/", IsSlash);
  }

  lemma PaulHosts()
    ensures RemoveHosts(PaulUrl()) == "in/paul-bryzek/"
  {
    PaulScheme();
    var url, host := PaulUrl(), "www.linkedin.com" + "/in/paul-bryzek/";
    assert url[8..] == host;
    assert host[17..] == "/in/paul-bryzek/"[1..] == "in/paul-bryzek/";
    assert url[25..] == host[17..];
    RemoveHostsNone("in/paul-bryzek/");
  }

  lemma PaulPath()
    ensures Trim(RemoveHosts(PaulUrl()), IsSlash) == "in/paul-bryzek"
  {
    var rest := "in/paul-bryzek/";
    PaulHosts();
    assert TrimStart(rest, IsSlash) == rest;
    assert rest[..|rest| - 1] == "in/paul-bryzek";
  }

  /** A path `in/<handle>` yields the handle. */
  lemma HandleOfProfile(url: string, h: string)
    requires Trim(RemoveHosts(url), IsSlash) == "in" + ['/'] + h
    requires '/' !in h
    ensures Handle(url) == h
  {
    SplitTwo("in", h, '/');
  }

  lemma PaulHandle()
    ensures Handle(PaulUrl()) == "paul-bryzek"
  {
    PaulPath();
    PaulSegment();
    HandleOfProfile(PaulUrl(), "paul-bryzek");
  }

  lemma PaulSegment()
    ensures "in/paul-bryzek" == "in" + ['/'] + "paul-bryzek"
    ensures '/' !in "paul-bryzek"
  {
    var h := "paul-bryzek";
    assert forall i :: 0 <= i < |h| ==> h[i] != '/';
  }

  /** A handle's first word, cut at a delimiter, is its token. */
  lemma TokenOf(word: string, rest: string)
    requires forall i :: 0 <= i < |word| ==> !IsDigit(word[i]) && !IsDelimiter(word[i]) && !IsSpace(word[i])
    requires rest != [] && IsDelimiter(rest[0])
    ensures Token(word + rest) == word
  {
    TakeUntilAt(word, rest, IsDelimiter);
    RemoveDigitsNone(word);
    TrimNone(word, IsSpace);
  }

  lemma PaulToken()
    ensures Token("paul-bryzek") == "paul"
  {
    TokenOf("paul", "-bryzek");
    assert "paul" + "-bryzek" == "paul-bryzek";
  }

  lemma PaulCapitalized()
    ensures Capitalize("paul") == "Paul"
  {
    assert Lower("aul") == "aul";
  }

  /** The profile URL of the module's own example yields "Paul". */
  lemma ExtractPaul()
    ensures ExtractFirstName(PaulUrl()) == "Paul"
  {
    PaulHandle();
    PaulToken();
    PaulCapitalized();
  }

  // ---------------------------------------------------------------- profile URL

  /** A string field that starts with "http". */
  predicate IsHttp(v: Value) {
    v.Str? && "http" <= v.s
  }

  /** An http field that names linkedin.com. */
  predicate IsProfileLink(v: Value) {
    IsHttp(v) && Contains(v.s, "linkedin.com")
  }

  /** The generic URL fields, in the order they are tried. */
  const ProfileKeys: seq<string> := ["linkedin_url", "profile_url", "url"]

  /** The first of `keys` holding a linkedin.com http URL. */
  function FirstProfileLink(contact: Record, keys: seq<string>): (r: Option<string>)
    ensures r.None? <==> forall i :: 0 <= i < |keys| ==> !IsProfileLink(Get(contact, keys[i]))
    ensures r.Some? ==> "http" <= r.value && Contains(r.value, "linkedin.com")
  {
    if keys == [] then None
    else if IsProfileLink(Get(contact, keys[0])) then Some(Get(contact, keys[0]).s)
    else
      var r := FirstProfileLink(contact, keys[1..]);
      assert forall i :: 1 <= i < |keys| ==> keys[i] == keys[1..][i - 1];
      r
  }

  /** The URL `FirstProfileLink` picks comes from the first field that holds one. */
  lemma {:induction false} FirstProfileLinkAt(contact: Record, keys: seq<string>, i: nat)
    requires i < |keys| && IsProfileLink(Get(contact, keys[i]))
    requires forall j :: 0 <= j < i ==> !IsProfileLink(Get(contact, keys[j]))
    ensures FirstProfileLink(contact, keys) == Some(Get(contact, keys[i]).s)
    decreases i
  {
    if i > 0 {
      assert !IsProfileLink(Get(contact, keys[0]));
      FirstProfileLinkAt(contact, keys[1..], i - 1);
    }
  }

  /** The nested fallback: `socials.linkedin or socials.linkedin_url`, when it
      is an http string. */
  function SocialsLink(contact: Record): (r: Option<string>)
    ensures r.Some? ==> "http" <= r.value
  {
    var socials := Or(Get(contact, "socials"), Dict(map[], "{}"));
    if !socials.Dict? then None
    else
      var li := Or(Get(socials.fields, "linkedin"), Get(socials.fields, "linkedin_url"));
      if IsHttp(li) then Some(li.s) else None
  }

  /** `_get_linkedin_url_from_contact(contact)`: every URL it returns starts
      with "http"; when no field qualifies it raises a ValueError. */
  function LinkedInUrlFromContact(contact: Record): (r: Result<string>)
    ensures r.Ok? ==> "http" <= r.value
    ensures r.Raised? ==> r.error == ValueError
    ensures r.Raised? <==>
      && !IsHttp(Get(contact, "linkedin"))
      && (forall i :: 0 <= i < |ProfileKeys| ==> !IsProfileLink(Get(contact, ProfileKeys[i])))
      && SocialsLink(contact).None?
  {
    var li := Get(contact, "linkedin");
    if IsHttp(li) then Ok(li.s)
    else match FirstProfileLink(contact, ProfileKeys)
      case Some(u) => Ok(u)
      case None =>
        match SocialsLink(contact)
        case Some(u) => Ok(u)
        case None => Raised(ValueError)
  }

  /** The `linkedin` field wins whenever it is an http string, whatever else the contact holds. */
  lemma LinkedInFieldFirst(contact: Record)
    requires IsHttp(Get(contact, "linkedin"))
    ensures LinkedInUrlFromContact(contact) == Ok(Get(contact, "linkedin").s)
  {
  }

  /** Otherwise the first generic field with a linkedin.com URL wins over the socials. */
  lemma ProfileFieldNext(contact: Record, i: nat)
    requires !IsHttp(Get(contact, "linkedin"))
    requires i < |ProfileKeys| && IsProfileLink(Get(contact, ProfileKeys[i]))
    requires forall j :: 0 <= j < i ==> !IsProfileLink(Get(contact, ProfileKeys[j]))
    ensures LinkedInUrlFromContact(contact) == Ok(Get(contact, ProfileKeys[i]).s)
    ensures Contains(LinkedInUrlFromContact(contact).value, "linkedin.com")
  {
    FirstProfileLinkAt(contact, ProfileKeys, i);
  }

  /** A truthy `socials.linkedin` hides `socials.linkedin_url`: when it is not
      an http URL the lookup raises although `linkedin_url` holds one. */
  lemma SocialsShadowing(contact: Record, f: map<string, Value>, shown: string, bad: string, good: string)
    requires !IsHttp(Get(contact, "linkedin"))
    requires forall i :: 0 <= i < |ProfileKeys| ==> !IsProfileLink(Get(contact, ProfileKeys[i]))
    requires Get(contact, "socials") == Dict(f, shown)
    requires "linkedin" in f && f["linkedin"] == Str(bad) && bad != [] && !("http" <= bad)
    requires "linkedin_url" in f && f["linkedin_url"] == Str(good) && "http" <= good
    ensures LinkedInUrlFromContact(contact) == Raised(ValueError)
  {
  }

  // ---------------------------------------------------------------- message text

  /** `_personalize_message(first_name, base)`: with a placeholder, every
      `{first_name}` and then every `{{first_name}}` is replaced (a non-string
      name makes `replace` raise a TypeError); without one the greeting
      "Hi <name> — " is put in front. */
  function PersonalizeMessage(first: Value, base: string): (r: Result<string>)
    ensures r.Raised? <==> Contains(base, "{first_name}") && !first.Str?
    ensures r.Raised? ==> r.error == TypeError
    ensures !Contains(base, "{first_name}") ==> r == Ok("Hi " + Shown(first) + " — " + base)
  {
    DoubleHoldsSingle(base);
    if Contains(base, "{first_name}") || Contains(base, "{{first_name}}") then
      if first.Str? then Ok(Replace(Replace(base, "{first_name}", first.s), "{{first_name}}", first.s))
      else Raised(TypeError)
    else Ok("Hi " + Shown(first) + " — " + base)
  }

  /** A double-brace placeholder holds a single-brace one. */
  lemma DoubleHoldsSingle(s: string)
    ensures Contains(s, "{{first_name}}") ==> Contains(s, "{first_name}")
  {
    if Contains(s, "{{first_name}}") {
      assert "{{first_name}}" == "{" + ("{first_name}" + "}");
      ContainsPart(s, "{", "{first_name}" + "}");
      ContainsPart(s, "{first_name}", "}");
    }
  }

  /** With a name that cannot form a new placeholder, every placeholder is
      replaced, none is left, and the double-brace pass has nothing to do. */
  lemma PlaceholdersReplaced(name: string, base: string)
    requires Contains(base, "{first_name}")
    requires SafeReplacement("{first_name}", name)
    ensures PersonalizeMessage(Str(name), base) == Ok(Replace(base, "{first_name}", name))
    ensures !Contains(PersonalizeMessage(Str(name), base).value, "{first_name}")
  {
    var once := Replace(base, "{first_name}", name);
    ReplaceLeavesNone(base, "{first_name}", name);
    DoubleHoldsSingle(once);
    ReplaceAbsent(once, "{{first_name}}", name);
  }

  /** The single-brace pass runs first, so `{{first_name}}` becomes the name in
      single braces. */
  lemma DoubleBraceKeepsBraces(name: string)
    requires SafeReplacement("{first_name}", name)
    ensures PersonalizeMessage(Str(name), "{{first_name}}") == Ok("{" + name + "}")
  {
    var p, base := "{first_name}", "{{first_name}}";
    DoubleBraceSpelling();
    PlaceholdersReplaced(name, base);
    ReplaceInside('{', p, '}', name);
  }

  /** The double-brace placeholder is the single one in braces, and does not start with it. */
  lemma DoubleBraceSpelling()
    ensures "{{first_name}}" == ['{'] + "{first_name}" + ['}']
    ensures !("{first_name}" <= ['{'] + "{first_name}" + ['}'])
  {
    assert "{{first_name}}"[1] != "{first_name}"[1];
  }

  // ---------------------------------------------------------------- waiting for login

  /** One check of the login wait: the seconds elapsed since the wait began,
      and the page at that moment. */
  datatype Poll = Poll(elapsed: nat, page: Page)

  /** How long the session waits for a manual login, in seconds. */
  const MaxLoginWait: nat := 600

  /** Whether the wait sees a login: the checks are made in order while the
      time is not up, and the first logged-in page ends the wait. */
  function LoginSeen(polls: seq<Poll>, maxWait: nat): bool
  {
    if polls == [] || polls[0].elapsed >= maxWait then false
    else IsLoggedIn(polls[0].page) || LoginSeen(polls[1..], maxWait)
  }

  /** The checks up to the `k`-th were all made before the time was up. */
  predicate InTime(polls: seq<Poll>, maxWait: nat, k: int) {
    0 <= k < |polls| && forall j :: 0 <= j <= k ==> polls[j].elapsed < maxWait
  }

  /** A login is seen exactly when some check in time finds the page logged in. */
  lemma {:induction false} LoginSeenIff(polls: seq<Poll>, maxWait: nat)
    ensures LoginSeen(polls, maxWait) <==> exists k :: InTime(polls, maxWait, k) && IsLoggedIn(polls[k].page)
    decreases |polls|
  {
    if polls != [] {
      LoginSeenIff(polls[1..], maxWait);
      if LoginSeen(polls, maxWait) {
        if !IsLoggedIn(polls[0].page) {
          var k :| InTime(polls[1..], maxWait, k) && IsLoggedIn(polls[1..][k].page);
          assert InTime(polls, maxWait, k + 1);
        } else {
          assert InTime(polls, maxWait, 0);
        }
      } else {
        forall k | InTime(polls, maxWait, k) ensures !IsLoggedIn(polls[k].page) {
          if k > 0 {
            assert InTime(polls[1..], maxWait, k - 1);
          }
        }
      }
    }
  }

  /** `_wait_for_login(page, max_wait)`: poll the page until it is logged in
      or the time is up. */
  method WaitForLogin(polls: seq<Poll>, maxWait: nat) returns (ok: bool)
    ensures ok == LoginSeen(polls, maxWait)
  {
    var k := 0;
    while k < |polls| && polls[k].elapsed < maxWait
      invariant k <= |polls|
      invariant LoginSeen(polls, maxWait) == LoginSeen(polls[k..], maxWait)
    {
      if IsLoggedIn(polls[k].page) {
        return true;
      }
      assert polls[k..][1..] == polls[k + 1..];
      k := k + 1;
    }
    return false;
  }

  // ---------------------------------------------------------------- the message button

  /** What the profile page shows once it has loaded: the visibility checks of
      the matches of the `i`-th of `MessageSelectors` as `matches(i)` (a check
      or the whole lookup can raise), every button on the page, whether
      clicking the button found works (directly or through the script
      fallback), whether the `i`-th of `EditorSelectors` appears visible as
      `editors(i)`, whether typing the text works and whether the send key
      press works (directly or on the retry). The page is asked about the
      selectors by position; they are all distinct, so this is the same as
      asking by the selector text. */
  datatype Profile = Profile(
    matches: nat -> Result<seq<Result<bool>>>,
    buttons: Result<seq<ButtonView>>,
    clickWorks: bool,
    editors: nat -> Result<bool>,
    typingWorks: bool,
    sendWorks: bool)

  /** One `button` element for the broad search: its text and its visibility. */
  datatype ButtonView = ButtonView(text: Result<string>, visible: Result<bool>)

  /** Where the message button was found: the selector and match, or the
      position among all buttons. */
  datatype ButtonRef = BySelector(selector: nat, index: nat) | ByText(index: nat)

  /** The selectors a message button is looked for with, in order. */
  const MessageSelectors: seq<string> := [
    "button[aria-label*='Message']",
    "button:has-text('Message')",
    "button.artdeco-button:has-text('Message')",
    "button.pvs-profile-actions__action:has-text('Message')",
    "button[data-control-name='message_profile']",
    "//button[contains(text(), 'Message')]",
    "//span[contains(text(), 'Message')]/ancestor::button"]

  /** How many message selectors there are. */
  const MessageSelectorCount: nat := 7

  /** The first match reported visible; a check that raises is skipped. */
  function FirstVisible(vis: seq<Result<bool>>): (r: Option<nat>)
    ensures r.Some? ==> r.value < |vis| && vis[r.value] == Ok(true)
    ensures r.Some? ==> forall j :: 0 <= j < r.value ==> vis[j] != Ok(true)
    ensures r.None? <==> forall j :: 0 <= j < |vis| ==> vis[j] != Ok(true)
  {
    if vis == [] then None
    else if vis[0] == Ok(true) then Some(0)
    else
      var r := FirstVisible(vis[1..]);
      assert forall j :: 1 <= j < |vis| ==> vis[j] == vis[1..][j - 1];
      match r
      case Some(k) => Some(k + 1)
      case None => None
  }

  /** The visibility loop over one selector's matches, with its break on the first visible one. */
  method FindVisible(vis: seq<Result<bool>>) returns (r: Option<nat>)
    ensures r == FirstVisible(vis)
  {
    var k := 0;
    while k < |vis|
      invariant k <= |vis|
      invariant forall j :: 0 <= j < k ==> vis[j] != Ok(true)
    {
      if vis[k] == Ok(true) {
        return Some(k);
      }
      k := k + 1;
    }
    return None;
  }

  /** A selector whose matches show no visible button (or whose lookup raises). */
  predicate NoneVisible(p: Profile, sel: nat) {
    p.matches(sel).Raised? || FirstVisible(p.matches(sel).value).None?
  }

  /** The scan over the first `n` selectors from the `from`-th on: the first
      selector, in list order, with a visible match wins. */
  function SelectorScan(p: Profile, n: nat, from: nat): (r: Option<ButtonRef>)
    requires from <= n
    ensures r.Some? ==> r.value.BySelector? && from <= r.value.selector < n
    ensures r.Some? && r.value.BySelector? ==> forall i :: from <= i < r.value.selector ==> NoneVisible(p, i)
    ensures r.Some? && r.value.BySelector? ==>
      (p.matches(r.value.selector).Ok? && FirstVisible(p.matches(r.value.selector).value) == Some(r.value.index))
    ensures r.None? <==> forall i :: from <= i < n ==> NoneVisible(p, i)
    decreases n - from
  {
    if from == n then None
    else if NoneVisible(p, from) then SelectorScan(p, n, from + 1)
    else Some(BySelector(from, FirstVisible(p.matches(from).value).value))
  }

  /** A button the broad search accepts: its text mentions "message" and it is visible. */
  predicate IsMessageButton(b: ButtonView) {
    b.text.Ok? && Contains(Lower(b.text.value), "message") && b.visible == Ok(true)
  }

  /** The broad search over all buttons: the first message button. */
  function TextScan(bs: seq<ButtonView>): (r: Option<nat>)
    ensures r.Some? ==> r.value < |bs| && IsMessageButton(bs[r.value])
    ensures r.Some? ==> forall j :: 0 <= j < r.value ==> !IsMessageButton(bs[j])
    ensures r.None? <==> forall j :: 0 <= j < |bs| ==> !IsMessageButton(bs[j])
  {
    if bs == [] then None
    else if IsMessageButton(bs[0]) then Some(0)
    else
      var r := TextScan(bs[1..]);
      assert forall j :: 1 <= j < |bs| ==> bs[j] == bs[1..][j - 1];
      match r
      case Some(k) => Some(k + 1)
      case None => None
  }

  /** The message button: by the selectors if any shows one, else by the broad search. */
  function ButtonFound(p: Profile): (r: Option<ButtonRef>)
    ensures SelectorScan(p, MessageSelectorCount, 0).Some? ==> r == SelectorScan(p, MessageSelectorCount, 0)
    ensures r.Some? && r.value.ByText? ==>
      && SelectorScan(p, MessageSelectorCount, 0).None?
      && p.buttons.Ok? && r.value.index < |p.buttons.value| && IsMessageButton(p.buttons.value[r.value.index])
  {
    match SelectorScan(p, MessageSelectorCount, 0)
    case Some(b) => Some(b)
    case None =>
      if p.buttons.Raised? then None
      else match TextScan(p.buttons.value)
        case Some(k) => Some(ByText(k))
        case None => None
  }

  /** The selector loop of the button search, with its inner loop over the
      matches and its break on the first visible one. */
  method FindBySelector(p: Profile, n: nat) returns (found: Option<ButtonRef>)
    ensures found == SelectorScan(p, n, 0)
  {
    var i := 0;
    while i < n
      invariant i <= n
      invariant SelectorScan(p, n, 0) == SelectorScan(p, n, i)
    {
      var buttons := p.matches(i);
      if buttons.Ok? {
        var k := FindVisible(buttons.value);
        if k.Some? {
          return Some(BySelector(i, k.value));
        }
      }
      i := i + 1;
    }
    return None;
  }

  /** The broad search over all buttons, returning on the first message button. */
  method FindByText(all: seq<ButtonView>) returns (found: Option<nat>)
    ensures found == TextScan(all)
  {
    var j := 0;
    while j < |all|
      invariant j <= |all|
      invariant forall m :: 0 <= m < j ==> !IsMessageButton(all[m])
    {
      if all[j].text.Ok? && Contains(Lower(all[j].text.value), "message") && all[j].visible == Ok(true) {
        return Some(j);
      }
      j := j + 1;
    }
    return None;
  }

  /** The button search of `send_message`: the selectors first, then the broad
      search over all buttons. */
  method FindMessageButton(p: Profile) returns (found: Option<ButtonRef>)
    ensures found == ButtonFound(p)
  {
    found := FindBySelector(p, MessageSelectorCount);
    if found.Some? {
      return;
    }
    if p.buttons.Raised? {
      return None;
    }
    var k := FindByText(p.buttons.value);
    if k.Some? {
      return Some(ByText(k.value));
    }
    return None;
  }

  // ---------------------------------------------------------------- the message editor

  /** The selectors the message editor is waited for with, in order. */
  const EditorSelectors: seq<string> := [
    "div[contenteditable='true'][aria-label*='message']",
    "div.msg-form__contenteditable[contenteditable='true']",
    "div.msg-form__message-texteditor [contenteditable='true']",
    "div.msg-form__msg-content-container [contenteditable='true']",
    "div[role='textbox'][contenteditable='true']",
    "div[contenteditable='true']"]

  /** How many editor selectors there are. */
  const EditorSelectorCount: nat := 6

  /** The counts are those of the lists. */
  lemma SelectorCounts()
    ensures |MessageSelectors| == MessageSelectorCount && |EditorSelectors| == EditorSelectorCount
  {
  }

  /** The first of the first `n` editor selectors, from the `from`-th on, that
      appears and is visible. */
  function EditorScan(p: Profile, n: nat, from: nat): (r: Option<nat>)
    requires from <= n
    ensures r.Some? ==> from <= r.value < n && p.editors(r.value) == Ok(true)
    ensures r.Some? ==> forall i :: from <= i < r.value ==> p.editors(i) != Ok(true)
    ensures r.None? <==> forall i :: from <= i < n ==> p.editors(i) != Ok(true)
    decreases n - from
  {
    if from == n then None
    else if p.editors(from) == Ok(true) then Some(from)
    else EditorScan(p, n, from + 1)
  }

  /** The editor loop of `send_message`, with its break on the first visible editor. */
  method FindEditor(p: Profile) returns (found: Option<nat>)
    ensures found == EditorScan(p, EditorSelectorCount, 0)
  {
    var i := 0;
    while i < EditorSelectorCount
      invariant i <= EditorSelectorCount
      invariant EditorScan(p, EditorSelectorCount, 0) == EditorScan(p, EditorSelectorCount, i)
    {
      if p.editors(i) == Ok(true) {
        return Some(i);
      }
      i := i + 1;
    }
    return None;
  }

  // ---------------------------------------------------------------- send_message

  /** What the browser shows during one `send_message`: the page each
      navigation to the profile lands on (the `k`-th navigation is `visit(k)`;
      a navigation can fail), the checks of the login wait and the page when
      the wait ends, and the loaded profile page. */
  datatype Browser = Browser(visit: nat -> Result<Page>, polls: seq<Poll>, afterWait: Page, profile: Profile)

  /** How `send_message` ended. */
  datatype Outcome = NotLoggedIn | NoButton | NoEditor | Failed | Drafted | Sent

  /** A stage that either goes on (`Ok(true)`), stops (`Ok(false)`) or raises,
      with the calls it made. */
  datatype Stage = Stage(result: Result<bool>, effects: seq<Effect>)

  /** A browser call: a navigation, a session save, the click, the typing or the send key. */
  predicate IsBrowserCall(e: Effect) {
    e.Visited? || e.SessionSaved? || e.ClickedMessage? || e.Typed? || e.PressedSend?
  }

  /** Opening the profile with a logged-in session, up to the button search.
      A page that is not logged in gets the login wait; a login seen then (or
      a logged-in page when it ends) leads back to the profile, which must
      now be logged in, and the session is saved. A session that looks valid
      is taken to the profile if the page is elsewhere; if it then turns out
      logged out, the wait runs once more, its result ignored, before the
      profile is visited again and the session saved. */
  function Opening(b: Browser, url: string): (r: Stage)
    ensures forall i :: 0 <= i < |r.effects| ==> r.effects[i].Visited? || r.effects[i].SessionSaved?
    ensures r.effects != [] && r.effects[0] == Visited(url)
  {
    var first := [Visited(url)];
    match b.visit(0)
    case Raised(e) => Stage(Raised(e), first)
    case Ok(landing) =>
      if !IsLoggedIn(landing) then
        if LoginSeen(b.polls, MaxLoginWait) || IsLoggedIn(b.afterWait) then
          var again := first + [Visited(url)];
          match b.visit(1)
          case Raised(e) => Stage(Raised(e), again)
          case Ok(back) =>
            if !IsLoggedIn(back) then Stage(Ok(false), again)
            else Stage(Ok(true), again + [SessionSaved])
        else Stage(Ok(false), first)
      else
        var moved := !Contains(landing.url, url);
        var pre := if moved then first + [Visited(url)] else first;
        var current := if moved then b.visit(1) else Ok(landing);
        match current
        case Raised(e) => Stage(Raised(e), pre)
        case Ok(page) =>
          if IsLoggedIn(page) then Stage(Ok(true), pre)
          else
            var after := pre + [Visited(url)];
            match b.visit(|pre|)
            case Raised(e) => Stage(Raised(e), after)
            case Ok(_) => Stage(Ok(true), after + [SessionSaved])
  }

  /** How the message part ended and the calls it made. */
  datatype Ended = Ended(outcome: Outcome, effects: seq<Effect>)

  /** The message part of `send_message` on a loaded profile: find the button,
      click it, find the editor, type the text and, only in send mode, press
      the send key. Any exception in it ends it as `Failed`. */
  function Delivering(p: Profile, text: string, actuallySend: bool): (r: Ended)
    ensures r.outcome == NoButton <==> ButtonFound(p).None?
    ensures ClickedMessage in r.effects <==> ButtonFound(p).Some? && p.clickWorks
    ensures PressedSend in r.effects <==> r.outcome == Sent
    ensures r.outcome == Sent ==> actuallySend
    ensures r.outcome != NotLoggedIn
    ensures r.outcome == Drafted ==> !actuallySend && r.effects == [ClickedMessage, Typed(text)]
    ensures forall i :: 0 <= i < |r.effects| ==> r.effects[i].ClickedMessage? || r.effects[i].Typed? || r.effects[i].PressedSend?
  {
    if ButtonFound(p).None? then Ended(NoButton, [])
    else if !p.clickWorks then Ended(Outcome.Failed, [])
    else if EditorScan(p, EditorSelectorCount, 0).None? then Ended(NoEditor, [ClickedMessage])
    else if !p.typingWorks then Ended(Outcome.Failed, [ClickedMessage])
    else if !actuallySend then Ended(Drafted, [ClickedMessage, Typed(text)])
    else if !p.sendWorks then Ended(Outcome.Failed, [ClickedMessage, Typed(text)])
    else Ended(Sent, [ClickedMessage, Typed(text), PressedSend])
  }

  /** The message part of `send_message`. */
  method Deliver(p: Profile, text: string, actuallySend: bool) returns (outcome: Outcome, effects: seq<Effect>)
    ensures Ended(outcome, effects) == Delivering(p, text, actuallySend)
  {
    var button := FindMessageButton(p);
    if button.None? {
      return NoButton, [];
    }
    if !p.clickWorks {
      return Outcome.Failed, [];
    }
    effects := [ClickedMessage];
    var editor := FindEditor(p);
    if editor.None? {
      return NoEditor, effects;
    }
    if !p.typingWorks {
      return Outcome.Failed, effects;
    }
    effects := effects + [Typed(text)];
    if !actuallySend {
      return Drafted, effects;
    }
    if !p.sendWorks {
      return Outcome.Failed, effects;
    }
    effects := effects + [PressedSend];
    return Sent, effects;
  }

  /** What `send_message` returned (or raised) and its browser calls. */
  datatype Session = Session(result: Result<Outcome>, effects: seq<Effect>)

  /** The specification of `send_message(url, text, actually_send)`. */
  function MessageSession(b: Browser, url: string, text: string, actuallySend: bool): (r: Session)
    ensures forall i :: 0 <= i < |r.effects| ==> IsBrowserCall(r.effects[i])
    ensures r.effects != [] && r.effects[0] == Visited(url)
  {
    var s := Opening(b, url);
    match s.result
    case Raised(e) => Session(Raised(e), s.effects)
    case Ok(go) =>
      if !go then Session(Ok(NotLoggedIn), s.effects)
      else
        var d := Delivering(b.profile, text, actuallySend);
        Session(Ok(d.outcome), s.effects + d.effects)
  }

  /** `send_message(url, text, actually_send)`: the login state machine, then the message part. */
  method SendMessage(b: Browser, url: string, text: string, actuallySend: bool) returns (r: Result<Outcome>, effects: seq<Effect>)
    ensures Session(r, effects) == MessageSession(b, url, text, actuallySend)
  {
    effects := [Visited(url)];
    var landing := b.visit(0);
    if landing.Raised? {
      return Raised(landing.error), effects;
    }
    if !IsLoggedIn(landing.value) {
      var seen := WaitForLogin(b.polls, MaxLoginWait);
      if seen || IsLoggedIn(b.afterWait) {
        effects := effects + [Visited(url)];
        var back := b.visit(1);
        if back.Raised? {
          return Raised(back.error), effects;
        }
        if !IsLoggedIn(back.value) {
          return Ok(NotLoggedIn), effects;
        }
        effects := effects + [SessionSaved];
      } else {
        return Ok(NotLoggedIn), effects;
      }
    } else {
      var page := landing.value;
      if !Contains(page.url, url) {
        effects := effects + [Visited(url)];
        var moved := b.visit(1);
        if moved.Raised? {
          return Raised(moved.error), effects;
        }
        page := moved.value;
      }
      if !IsLoggedIn(page) {
        var ignored := WaitForLogin(b.polls, MaxLoginWait);
        var k := |effects|;
        effects := effects + [Visited(url)];
        var again := b.visit(k);
        if again.Raised? {
          return Raised(again.error), effects;
        }
        effects := effects + [SessionSaved];
      }
    }
    assert Opening(b, url) == Stage(Ok(true), effects);
    var outcome, rest := Deliver(b.profile, text, actuallySend);
    return Ok(outcome), effects + rest;
  }

  /** The send key is pressed only in send mode, and exactly when the message is sent. */
  lemma SendOnlyWhenAsked(b: Browser, url: string, text: string, actuallySend: bool)
    ensures var s := MessageSession(b, url, text, actuallySend);
      (PressedSend in s.effects <==> s.result == Ok(Sent)) && (PressedSend in s.effects ==> actuallySend)
  {
    var o := Opening(b, url);
    assert PressedSend !in o.effects;
    if o.result == Ok(true) {
      var d := Delivering(b.profile, text, actuallySend);
      assert PressedSend in o.effects + d.effects <==> PressedSend in d.effects;
    }
  }

  /** Without a message button nothing is clicked, typed or sent. */
  lemma NoButtonNoMessage(b: Browser, url: string, text: string, actuallySend: bool)
    requires ButtonFound(b.profile).None?
    ensures var s := MessageSession(b, url, text, actuallySend);
      && s.result != Ok(Sent) && s.result != Ok(Drafted)
      && forall i :: 0 <= i < |s.effects| ==> s.effects[i].Visited? || s.effects[i].SessionSaved?
  {
    var o := Opening(b, url);
    if o.result == Ok(true) {
      assert Delivering(b.profile, text, actuallySend) == Ended(NoButton, []);
      assert o.effects + [] == o.effects;
    }
  }

  /** After a manual login the session is saved before the message part begins. */
  lemma LoginSavesSession(b: Browser, url: string, text: string, actuallySend: bool)
    requires b.visit(0).Ok? && !IsLoggedIn(b.visit(0).value)
    requires LoginSeen(b.polls, MaxLoginWait)
    requires b.visit(1).Ok? && IsLoggedIn(b.visit(1).value)
    ensures var s := MessageSession(b, url, text, actuallySend);
      |s.effects| >= 3 && s.effects[..3] == [Visited(url), Visited(url), SessionSaved] && s.result.Ok? && s.result != Ok(NotLoggedIn)
  {
    var pre := [Visited(url), Visited(url), SessionSaved];
    LoginOpening(b, url);
    OpenedSession(b, url, text, actuallySend, pre);
    var d := Delivering(b.profile, text, actuallySend);
    assert (pre + d.effects)[..3] == pre;
  }

  /** A manual login that leads back to a logged-in profile opens it with the
      two visits and the session save. */
  lemma LoginOpening(b: Browser, url: string)
    requires b.visit(0).Ok? && !IsLoggedIn(b.visit(0).value)
    requires LoginSeen(b.polls, MaxLoginWait)
    requires b.visit(1).Ok? && IsLoggedIn(b.visit(1).value)
    ensures Opening(b, url) == Stage(Ok(true), [Visited(url), Visited(url), SessionSaved])
  {
  }

  /** Once the profile is open the message part follows the opening's calls. */
  lemma OpenedSession(b: Browser, url: string, text: string, actuallySend: bool, pre: seq<Effect>)
    requires Opening(b, url) == Stage(Ok(true), pre)
    ensures var d := Delivering(b.profile, text, actuallySend);
      MessageSession(b, url, text, actuallySend) == Session(Ok(d.outcome), pre + d.effects)
  {
  }

  /** A login that does not happen in time ends the session with nothing sent. */
  lemma NoLoginNoMessage(b: Browser, url: string, text: string, actuallySend: bool)
    requires b.visit(0).Ok? && !IsLoggedIn(b.visit(0).value)
    requires !LoginSeen(b.polls, MaxLoginWait) && !IsLoggedIn(b.afterWait)
    ensures MessageSession(b, url, text, actuallySend) == Session(Ok(NotLoggedIn), [Visited(url)])
  {
  }

  // ---------------------------------------------------------------- send_to_contact

  /** The message to a contact, once the contact and the campaign are read:
      the profile URL and the personalised text, or nothing when a step raised. */
  datatype Draft = Draft(ready: Option<(string, string)>, effects: seq<Effect>)

  /** Reading the contact and the campaign and writing the message. The name
      is the contact's `first_name` when truthy, else the one taken from the URL. */
  function Prepare(w: World, contact: int, campaign: int): (d: Draft)
    ensures d.effects == [Fetched(ContactUrl(w, Int(contact)))]
      || d.effects == [Fetched(ContactUrl(w, Int(contact))), Fetched(CampaignUrl(w, Int(campaign)))]
    ensures d.ready.Some? ==> |d.effects| == 2 && "http" <= d.ready.value.0
  {
    var fetched := [Fetched(ContactUrl(w, Int(contact)))];
    var got := GetContact(w, Int(contact));
    if got.Raised? || !got.value.Dict? then Draft(None, fetched)
    else
      var rec := got.value.fields;
      var url := LinkedInUrlFromContact(rec);
      if url.Raised? then Draft(None, fetched)
      else
        var read := fetched + [Fetched(CampaignUrl(w, Int(campaign)))];
        var base := GetCampaignMessageText(w, Int(campaign));
        if base.Raised? then Draft(None, read)
        else
          var first := Or(Get(rec, "first_name"), Str(ExtractFirstName(url.value)));
          var text := PersonalizeMessage(first, base.value);
          if text.Raised? then Draft(None, read) else Draft(Some((url.value, text.value)), read)
  }

  /** The ledger entry written after a LinkedIn session in send mode. */
  function LinkedInEntry(contact: int, campaign: int, text: string): LogEntry {
    LogEntry(campaign, contact, "linkedin", Null, text, None)
  }

  /** The session for a prepared message and, in send mode, its ledger entry:
      every session that returns is logged, whatever it ended with. */
  function Closing(b: Browser, contact: int, campaign: int, url: string, text: string, actuallySend: bool): (e: seq<Effect>)
  {
    Closed(MessageSession(b, url, text, actuallySend), LinkedInEntry(contact, campaign, text), actuallySend)
  }

  /** A session followed, in send mode and when it returned, by the entry. */
  function Closed(s: Session, entry: LogEntry, actuallySend: bool): seq<Effect> {
    if s.result.Raised? || !actuallySend then s.effects else s.effects + [Logged(entry)]
  }

  /** Closing a session of browser calls that presses send only in send mode. */
  lemma ClosedLogs(s: Session, entry: LogEntry, actuallySend: bool)
    requires s.effects != [] && forall i :: 0 <= i < |s.effects| ==> IsBrowserCall(s.effects[i])
    requires PressedSend in s.effects ==> actuallySend
    ensures var e := Closed(s, entry, actuallySend);
      && e != []
      && Count(e, LogCall) <= 1
      && (Count(e, LogCall) == 1 <==> actuallySend && s.result.Ok?)
      && (Count(e, LogCall) == 1 ==> e[|e| - 1] == Logged(entry))
      && (PressedSend in e ==> actuallySend)
      && forall i :: 0 <= i < |e| ==> !e[i].CheckedLedger?
  {
    assert Count(s.effects, LogCall) == 0;
    var log := [Logged(entry)];
    CountAppend(s.effects, log, LogCall);
    assert PressedSend !in log;
  }

  /** A closing writes at most one ledger entry, as its last call, and only in
      send mode; the send key is pressed only in send mode. */
  lemma ClosingLogs(b: Browser, contact: int, campaign: int, url: string, text: string, actuallySend: bool)
    ensures var e := Closing(b, contact, campaign, url, text, actuallySend);
      && e != []
      && Count(e, LogCall) <= 1
      && (Count(e, LogCall) == 1 <==> actuallySend && MessageSession(b, url, text, actuallySend).result.Ok?)
      && (Count(e, LogCall) == 1 ==> e[|e| - 1] == Logged(LinkedInEntry(contact, campaign, text)))
      && (PressedSend in e ==> actuallySend)
      && forall i :: 0 <= i < |e| ==> !e[i].CheckedLedger?
  {
    SendOnlyWhenAsked(b, url, text, actuallySend);
    ClosedLogs(MessageSession(b, url, text, actuallySend), LinkedInEntry(contact, campaign, text), actuallySend);
  }

  /** The specification of `send_to_contact(contact, campaign, actually_send)`
      with the browser `b`. In send mode the ledger is asked first and a
      contact already reached (or a failing check) is skipped; every failure
      after that ends the call quietly. */
  function Contacting(w: World, b: Browser, contact: int, campaign: int, actuallySend: bool): (effects: seq<Effect>)
  {
    var check := if actuallySend then [CheckedLedger(campaign, contact, "linkedin")] else [];
    var dedup := w.contacted(campaign, contact, "linkedin");
    if actuallySend && (dedup.Raised? || dedup.value) then check
    else
      var d := Prepare(w, contact, campaign);
      if d.ready.None? then check + d.effects
      else check + (d.effects + Closing(b, contact, campaign, d.ready.value.0, d.ready.value.1, actuallySend))
  }

  /** `send_to_contact(contact, campaign, actually_send)`: it never raises. */
  method SendToContact(w: World, b: Browser, contact: int, campaign: int, actuallySend: bool) returns (effects: seq<Effect>)
    ensures effects == Contacting(w, b, contact, campaign, actuallySend)
  {
    var check := if actuallySend then [CheckedLedger(campaign, contact, "linkedin")] else [];
    if actuallySend {
      var dedup := w.contacted(campaign, contact, "linkedin");
      if dedup.Raised? || dedup.value {
        return check;
      }
    }
    ghost var d := Prepare(w, contact, campaign);
    var fetched := [Fetched(ContactUrl(w, Int(contact)))];
    var got := GetContact(w, Int(contact));
    if got.Raised? || !got.value.Dict? {
      assert d.ready.None? && d.effects == fetched;
      return check + fetched;
    }
    var rec := got.value.fields;
    var url := LinkedInUrlFromContact(rec);
    if url.Raised? {
      assert d.ready.None? && d.effects == fetched;
      return check + fetched;
    }
    var read := fetched + [Fetched(CampaignUrl(w, Int(campaign)))];
    var base := GetCampaignMessageText(w, Int(campaign));
    if base.Raised? {
      assert d.ready.None? && d.effects == read;
      return check + read;
    }
    var first := Or(Get(rec, "first_name"), Str(ExtractFirstName(url.value)));
    var text := PersonalizeMessage(first, base.value);
    if text.Raised? {
      assert d.ready.None? && d.effects == read;
      return check + read;
    }
    assert d == Draft(Some((url.value, text.value)), read);
    var r, session := SendMessage(b, url.value, text.value, actuallySend);
    if r.Raised? || !actuallySend {
      return check + (read + session);
    }
    effects := check + (read + (session + [Logged(LinkedInEntry(contact, campaign, text.value))]));
  }

  /** Draft mode neither asks nor writes the ledger and never presses send. */
  lemma DraftLeavesNoTrace(w: World, b: Browser, contact: int, campaign: int)
    ensures var e := Contacting(w, b, contact, campaign, false);
      && Count(e, LogCall) == 0 && PressedSend !in e
      && forall i :: 0 <= i < |e| ==> !e[i].CheckedLedger?
  {
    var d := Prepare(w, contact, campaign);
    PreparedQuietly(w, contact, campaign);
    if d.ready.Some? {
      var c := Closing(b, contact, campaign, d.ready.value.0, d.ready.value.1, false);
      ClosingLogs(b, contact, campaign, d.ready.value.0, d.ready.value.1, false);
      QuietBefore(d.effects, c);
      assert [] + (d.effects + c) == d.effects + c;
    } else {
      assert [] + d.effects == d.effects;
    }
  }

  /** Reading the contact and the campaign neither logs, presses send nor asks the ledger. */
  lemma PreparedQuietly(w: World, contact: int, campaign: int)
    ensures Quiet(Prepare(w, contact, campaign).effects)
  {
  }

  /** Calls that neither log, press send nor ask the ledger. */
  predicate Quiet(e: seq<Effect>) {
    Count(e, LogCall) == 0 && PressedSend !in e && forall i :: 0 <= i < |e| ==> !e[i].CheckedLedger?
  }

  /** Quiet calls before others add no ledger entry, press nothing and keep the last call. */
  lemma QuietBefore(pre: seq<Effect>, c: seq<Effect>)
    requires Quiet(pre)
    ensures Count(pre + c, LogCall) == Count(c, LogCall)
    ensures PressedSend in pre + c <==> PressedSend in c
    ensures (forall i :: 0 <= i < |c| ==> !c[i].CheckedLedger?) ==> forall i :: 0 <= i < |pre + c| ==> !(pre + c)[i].CheckedLedger?
    ensures c != [] ==> (pre + c)[|pre + c| - 1] == c[|c| - 1]
  {
    CountAppend(pre, c, LogCall);
    if PressedSend in pre + c {
      var i :| 0 <= i < |pre + c| && (pre + c)[i] == PressedSend;
      if i >= |pre| {
        assert c[i - |pre|] == PressedSend;
      }
    }
    if forall i :: 0 <= i < |c| ==> !c[i].CheckedLedger? {
      forall i | 0 <= i < |pre + c| ensures !(pre + c)[i].CheckedLedger? {
        if i >= |pre| {
          assert (pre + c)[i] == c[i - |pre|];
        }
      }
    }
  }

  /** In send mode a contact the ledger already holds gets nothing but the check. */
  lemma AlreadyMessaged(w: World, b: Browser, contact: int, campaign: int)
    requires w.contacted(campaign, contact, "linkedin") == Ok(true)
    ensures Contacting(w, b, contact, campaign, true) == [CheckedLedger(campaign, contact, "linkedin")]
  {
  }

  /** A closing in send mode on a profile without a message button presses
      nothing, yet logs the message whenever the session returns. */
  lemma ClosingWithoutButton(b: Browser, contact: int, campaign: int, url: string, text: string)
    requires ButtonFound(b.profile).None?
    ensures var c := Closing(b, contact, campaign, url, text, true);
      && PressedSend !in c
      && (MessageSession(b, url, text, true).result.Ok? ==> c[|c| - 1] == Logged(LinkedInEntry(contact, campaign, text)))
  {
    NoButtonNoMessage(b, url, text, true);
    var s := MessageSession(b, url, text, true);
    assert PressedSend !in s.effects;
  }

  /** A contact that is not yet in the ledger and whose message is ready
      gets the check, the two reads and the closing, in send mode. */
  lemma ContactingReady(w: World, b: Browser, contact: int, campaign: int, url: string, text: string)
    requires w.contacted(campaign, contact, "linkedin") == Ok(false)
    requires Prepare(w, contact, campaign).ready == Some((url, text))
    ensures Contacting(w, b, contact, campaign, true)
      == [CheckedLedger(campaign, contact, "linkedin")]
        + ([Fetched(ContactUrl(w, Int(contact))), Fetched(CampaignUrl(w, Int(campaign)))]
          + Closing(b, contact, campaign, url, text, true))
  {
    var d := Prepare(w, contact, campaign);
    assert d.effects == [Fetched(ContactUrl(w, Int(contact))), Fetched(CampaignUrl(w, Int(campaign)))];
  }

  /** Appending to calls that press nothing keeps the last call and what is pressed. */
  lemma AppendPressed(pre: seq<Effect>, c: seq<Effect>)
    requires PressedSend !in pre && c != []
    ensures (PressedSend in pre + c <==> PressedSend in c) && (pre + c)[|pre + c| - 1] == c[|c| - 1]
  {
    if PressedSend in pre + c {
      var i :| 0 <= i < |pre + c| && (pre + c)[i] == PressedSend;
      if i >= |pre| {
        assert c[i - |pre|] == PressedSend;
      }
    }
  }

  /** In send mode a contact whose profile has no message button is still
      logged as messaged once the session returns, although nothing was sent. */
  lemma LoggedWithoutSending(w: World, b: Browser, contact: int, campaign: int, url: string, text: string)
    requires w.contacted(campaign, contact, "linkedin") == Ok(false)
    requires Prepare(w, contact, campaign).ready == Some((url, text))
    requires ButtonFound(b.profile).None?
    ensures var e := Contacting(w, b, contact, campaign, true);
      && PressedSend !in e
      && (MessageSession(b, url, text, true).result.Ok? ==> e[|e| - 1] == Logged(LinkedInEntry(contact, campaign, text)))
  {
    ContactingReady(w, b, contact, campaign, url, text);
    ClosingWithoutButton(b, contact, campaign, url, text);
    var c := Closing(b, contact, campaign, url, text, true);
    var fetches := [Fetched(ContactUrl(w, Int(contact))), Fetched(CampaignUrl(w, Int(campaign)))];
    AppendPressed(fetches, c);
    AppendPressed([CheckedLedger(campaign, contact, "linkedin")], fetches + c);
  }

  /** At most one ledger entry per contact, written last, only in send mode
      and carrying the message that was prepared. */
  lemma LoggedLast(w: World, b: Browser, contact: int, campaign: int, actuallySend: bool)
    ensures var e := Contacting(w, b, contact, campaign, actuallySend);
      && Count(e, LogCall) <= 1
      && (Count(e, LogCall) == 1 ==>
        && actuallySend
        && Prepare(w, contact, campaign).ready.Some?
        && e[|e| - 1] == Logged(LinkedInEntry(contact, campaign, Prepare(w, contact, campaign).ready.value.1)))
  {
    var check := if actuallySend then [CheckedLedger(campaign, contact, "linkedin")] else [];
    assert Count(check, LogCall) == 0;
    var dedup := w.contacted(campaign, contact, "linkedin");
    var d := Prepare(w, contact, campaign);
    PreparedQuietly(w, contact, campaign);
    if actuallySend && (dedup.Raised? || dedup.value) {
      assert Contacting(w, b, contact, campaign, actuallySend) == check;
    } else if d.ready.Some? {
      var (url, text) := d.ready.value;
      var c := Closing(b, contact, campaign, url, text, actuallySend);
      assert Contacting(w, b, contact, campaign, actuallySend) == check + (d.effects + c);
      ClosingLogs(b, contact, campaign, url, text, actuallySend);
      ClosingLast(check, d.effects, c, LinkedInEntry(contact, campaign, text), actuallySend);
    } else {
      assert Contacting(w, b, contact, campaign, actuallySend) == check + d.effects;
      CountAppend(check, d.effects, LogCall);
    }
  }

  /** The check and the reads before a closing that logs at most once, last,
      and only in send mode, keep it so. */
  lemma ClosingLast(check: seq<Effect>, pre: seq<Effect>, c: seq<Effect>, entry: LogEntry, actuallySend: bool)
    requires Count(check, LogCall) == 0 && Quiet(pre)
    requires c != [] && Count(c, LogCall) <= 1
    requires Count(c, LogCall) == 1 ==> actuallySend && c[|c| - 1] == Logged(entry)
    ensures var e := check + (pre + c);
      && Count(e, LogCall) <= 1
      && (Count(e, LogCall) == 1 ==> actuallySend && e[|e| - 1] == Logged(entry))
  {
    QuietBefore(pre, c);
    CountAppend(check, pre + c, LogCall);
  }


  // ---------------------------------------------------------------- run_campaign

  /** The calls for each contact of a LinkedIn campaign, in order; contact `k`
      is handled in the browser `browsers(k)`. */
  function Turns(w: World, browsers: nat -> Browser, campaign: int, ids: seq<int>, actuallySend: bool): (turns: seq<seq<Effect>>)
    ensures |turns| == |ids|
  {
    seq(|ids|, k requires 0 <= k < |ids| => Contacting(w, browsers(k), ids[k], campaign, actuallySend))
  }

  lemma TurnAt(w: World, browsers: nat -> Browser, campaign: int, ids: seq<int>, actuallySend: bool, k: nat)
    requires k < |ids|
    ensures Turns(w, browsers, campaign, ids, actuallySend)[k] == Contacting(w, browsers(k), ids[k], campaign, actuallySend)
  {
  }

  /** The calls of the first `n` turns, one after the other. */
  function Joined(turns: seq<seq<Effect>>, n: nat): seq<Effect>
    requires n <= |turns|
  {
    if n == 0 then [] else Joined(turns, n - 1) + turns[n - 1]
  }

  /** Turns that each write at most `most` ledger entries write at most `n * most` in all. */
  lemma {:induction false} JoinedLogs(turns: seq<seq<Effect>>, n: nat, most: nat)
    requires n <= |turns|
    requires forall k :: 0 <= k < |turns| ==> Count(turns[k], LogCall) <= most
    ensures Count(Joined(turns, n), LogCall) <= n * most
  {
    if n > 0 {
      JoinedLogs(turns, n - 1, most);
      CountAppend(Joined(turns, n - 1), turns[n - 1], LogCall);
      assert (n - 1) * most + most == n * most;
    }
  }

  /** Every turn writes at most one ledger entry, and none in draft mode. */
  lemma TurnsLog(w: World, browsers: nat -> Browser, campaign: int, ids: seq<int>, actuallySend: bool)
    ensures var turns := Turns(w, browsers, campaign, ids, actuallySend);
      forall k :: 0 <= k < |turns| ==> Count(turns[k], LogCall) <= if actuallySend then 1 else 0
  {
    var turns := Turns(w, browsers, campaign, ids, actuallySend);
    forall k | 0 <= k < |turns| ensures Count(turns[k], LogCall) <= if actuallySend then 1 else 0 {
      TurnAt(w, browsers, campaign, ids, actuallySend, k);
      LoggedLast(w, browsers(k), ids[k], campaign, actuallySend);
    }
  }

  /** The calls of a whole LinkedIn campaign. */
  function Contacted(w: World, browsers: nat -> Browser, campaign: int, ids: seq<int>, actuallySend: bool): seq<Effect> {
    Joined(Turns(w, browsers, campaign, ids, actuallySend), |ids|)
  }

  /** `run_campaign(campaign, ids, actually_send)`: every contact counts as
      processed, because `send_to_contact` swallows its own failures. The
      Python method returns nothing; `processed` is the `success_count` it
      reports in its closing summary line. */
  method RunCampaign(w: World, browsers: nat -> Browser, campaign: int, ids: seq<int>, actuallySend: bool)
    returns (processed: nat, effects: seq<Effect>)
    ensures processed == |ids|
    ensures effects == Contacted(w, browsers, campaign, ids, actuallySend)
  {
    ghost var turns := Turns(w, browsers, campaign, ids, actuallySend);
    processed := 0;
    effects := [];
    for k := 0 to |ids|
      invariant processed == k
      invariant effects == Joined(turns, k)
    {
      var more := SendToContact(w, browsers(k), ids[k], campaign, actuallySend);
      TurnAt(w, browsers, campaign, ids, actuallySend, k);
      effects := effects + more;
      processed := processed + 1;
    }
  }

  /** A campaign in draft mode writes nothing to the ledger. */
  lemma DraftCampaignLogsNothing(w: World, browsers: nat -> Browser, campaign: int, ids: seq<int>)
    ensures Count(Contacted(w, browsers, campaign, ids, false), LogCall) == 0
  {
    TurnsLog(w, browsers, campaign, ids, false);
    JoinedLogs(Turns(w, browsers, campaign, ids, false), |ids|, 0);
  }

  /** A campaign in send mode writes at most one ledger entry per contact. */
  lemma CampaignLogsAtMostOnce(w: World, browsers: nat -> Browser, campaign: int, ids: seq<int>)
    ensures Count(Contacted(w, browsers, campaign, ids, true), LogCall) <= |ids|
  {
    TurnsLog(w, browsers, campaign, ids, true);
    JoinedLogs(Turns(w, browsers, campaign, ids, true), |ids|, 1);
  }
}
