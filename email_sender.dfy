/** The e-mail channel: address resolution, placeholder substitution, the
    per-contact dedup / send / log sequence and the campaign loop with its
    pauses between sends. Gmail itself is the `mail` oracle of the world. */
module EmailSender {
  import opened Text
  import opened Values
  import opened Backend
  import opened ApiClient

  /** The configuration a sender carries: the From address recorded in the
      ledger and the range of the pause between two sends. */
  datatype Sender = Sender(senderEmail: string, minDelayMs: int, maxDelayMs: int)

  // ---------------------------------------------------------------- address

  /** The fields an address is looked for in, in the order they are tried. */
  const AddressKeys: seq<string> := ["email", "email_address", "primary_email", "work_email"]

  /** A field value that can serve as an address: a string with an "@". */
  predicate IsAddress(v: Value) {
    v.Str? && '@' in v.s
  }

  /** The first address among `keys`, stripped; a ValueError when none is. */
  function FirstAddress(contact: Record, keys: seq<string>): (r: Result<string>)
    ensures r.Raised? <==> forall i :: 0 <= i < |keys| ==> !IsAddress(Get(contact, keys[i]))
    ensures r.Raised? ==> r.error == ValueError
    ensures r.Ok? ==> '@' in r.value && Trimmed(r.value)
  {
    if keys == [] then Raised(ValueError)
    else if IsAddress(Get(contact, keys[0])) then
      var s := Get(contact, keys[0]).s;
      TrimKeeps(s, IsSpace, '@');
      StripTrimmed(s);
      Ok(Strip(s))
    else FirstAddress(contact, keys[1..])
  }

  /** The address `FirstAddress` picks comes from the first field that holds one. */
  lemma {:induction false} FirstAddressAt(contact: Record, keys: seq<string>, i: nat)
    requires i < |keys| && IsAddress(Get(contact, keys[i]))
    requires forall j :: 0 <= j < i ==> !IsAddress(Get(contact, keys[j]))
    ensures FirstAddress(contact, keys) == Ok(Strip(Get(contact, keys[i]).s))
    decreases i
  {
    if i > 0 {
      assert !IsAddress(Get(contact, keys[0]));
      FirstAddressAt(contact, keys[1..], i - 1);
    }
  }

  /** `_get_email_from_contact(contact)` */
  function EmailFromContact(contact: Record): (r: Result<string>)
    ensures r.Raised? <==> forall i :: 0 <= i < |AddressKeys| ==> !IsAddress(Get(contact, AddressKeys[i]))
    ensures r.Raised? ==> r.error == ValueError
    ensures r.Ok? ==> '@' in r.value && Trimmed(r.value)
  {
    FirstAddress(contact, AddressKeys)
  }

  // ---------------------------------------------------------------- personalisation

  /** `s.replace("{{key}}", v).replace("{key}", v)` when `v` is truthy; a
      truthy value that is not a string makes `replace` raise a TypeError. */
  function Fill(s: string, key: string, v: Value): (r: Result<string>)
    ensures r.Raised? <==> Truthy(v) && !v.Str?
    ensures r.Raised? ==> r.error == TypeError
    ensures !Truthy(v) ==> r == Ok(s)
  {
    if !Truthy(v) then Ok(s)
    else if !v.Str? then Raised(TypeError)
    else Ok(Replace(Replace(s, "{{" + key + "}}", v.s), "{" + key + "}", v.s))
  }

  /** The full name: first and last name shown side by side, stripped. */
  function FullName(contact: Record): (r: string)
    ensures Trimmed(r)
  {
    var joined := Shown(GetOr(contact, "first_name", Str(""))) + " " + Shown(GetOr(contact, "last_name", Str("")));
    StripTrimmed(joined);
    Strip(joined)
  }

  /** The full name joins the two names with one space; when either is
      empty only the other remains, without the space. */
  lemma FullNameParts(contact: Record)
    ensures var first, last := Shown(GetOr(contact, "first_name", Str(""))), Shown(GetOr(contact, "last_name", Str("")));
      && (first != [] && last != [] && Trimmed(first) && Trimmed(last) ==> FullName(contact) == first + " " + last)
      && (Trimmed(first) && last == [] ==> FullName(contact) == first)
      && (first == [] && Trimmed(last) ==> FullName(contact) == last)
  {
    StripJoin(Shown(GetOr(contact, "first_name", Str(""))), Shown(GetOr(contact, "last_name", Str(""))));
  }

  /** `_personalize_html(html, contact)` */
  function PersonalizeHtml(html: string, contact: Record): (r: Result<string>)
    ensures r.Raised? <==>
      || (Truthy(GetOr(contact, "first_name", Str(""))) && !GetOr(contact, "first_name", Str("")).Str?)
      || (Truthy(GetOr(contact, "last_name", Str(""))) && !GetOr(contact, "last_name", Str("")).Str?)
    ensures r.Raised? ==> r.error == TypeError
  {
    var p1 :- Fill(html, "first_name", GetOr(contact, "first_name", Str("")));
    var p2 :- Fill(p1, "last_name", GetOr(contact, "last_name", Str("")));
    Fill(p2, "full_name", Str(FullName(contact)))
  }

  /** A placeholder that does not occur is not touched by its `Fill`. */
  lemma FillAbsent(s: string, key: string, v: Value)
    requires !Contains(s, "{" + key + "}")
    requires Fill(s, key, v).Ok?
    ensures Fill(s, key, v) == Ok(s)
  {
    if Truthy(v) {
      var single := "{" + key + "}";
      var double := "{{" + key + "}}";
      if Contains(s, double) {
        assert double == "{" + (single + "}");
        ContainsPart(s, "{", single + "}");
        ContainsPart(s, single, "}");
        assert false;
      }
      ReplaceAbsent(s, double, v.s);
      ReplaceAbsent(s, single, v.s);
    }
  }

  /** A body without placeholders comes back unchanged. */
  lemma PersonalizeWithoutPlaceholders(html: string, contact: Record)
    requires !Contains(html, "{first_name}") && !Contains(html, "{last_name}") && !Contains(html, "{full_name}")
    requires PersonalizeHtml(html, contact).Ok?
    ensures PersonalizeHtml(html, contact) == Ok(html)
  {
    PlaceholderSpelling();
    var first, last := GetOr(contact, "first_name", Str("")), GetOr(contact, "last_name", Str(""));
    FillAbsent(html, "first_name", first);
    FillAbsent(html, "last_name", last);
    FillAbsent(html, "full_name", Str(FullName(contact)));
  }

  /** The placeholders as `Fill` spells them. */
  lemma PlaceholderSpelling()
    ensures "{" + "first_name" + "}" == "{first_name}"
    ensures "{" + "last_name" + "}" == "{last_name}"
    ensures "{" + "full_name" + "}" == "{full_name}"
  {
  }

  /** Text without "{" holds no placeholder. */
  lemma NoBraceNoPlaceholder(s: string, key: string)
    requires '{' !in s
    ensures !Contains(s, "{" + key + "}") && !Contains(s, "{{" + key + "}}")
  {
    if Contains(s, "{" + key + "}") {
      ContainsFirst(s, "{" + key + "}");
    }
    if Contains(s, "{{" + key + "}}") {
      ContainsFirst(s, "{{" + key + "}}");
    }
  }

  /** A placeholder key: non-empty and without braces. */
  predicate PlainKey(k: string) {
    k != [] && '{' !in k && '}' !in k
  }

  /** The three keys the e-mail body is personalised with are plain. */
  lemma NamesPlain()
    ensures PlainKey("first_name") && PlainKey("last_name") && PlainKey("full_name")
  {
  }

  /** Within one text, prefixes of overlapping strings overlap. */
  lemma OverlapPrefixes(a: string, b: string, x: string, y: string)
    requires a <= x && b <= y && Overlap(x, y)
    ensures Overlap(a, b)
  {
    if x <= y {
      PrefixesOverlap(a, b, y);
    } else {
      PrefixesOverlap(a, b, x);
    }
  }

  /** The placeholders of two different plain keys do not overlap. */
  lemma KeysApart(a: string, b: string)
    requires PlainKey(a) && PlainKey(b) && a != b
    ensures !Overlap("{" + a + "}", "{" + b + "}")
  {
    var pa, pb := "{" + a + "}", "{" + b + "}";
    if |a| == |b| {
      var i :| 0 <= i < |a| && a[i] != b[i];
      assert pa[i + 1] == a[i] && pb[i + 1] == b[i];
    } else if |a| < |b| {
      assert pa[|a| + 1] == '}' && pb[|a| + 1] == b[|a|];
    } else if |b| < |a| {
      assert pb[|b| + 1] == '}' && pa[|b| + 1] == a[|b|];
    }
  }

  /** Past its first character a placeholder holds no "{". */
  lemma OpensOnce(a: string, k: nat)
    requires PlainKey(a) && 0 < k < |a| + 2
    ensures ("{" + a + "}")[k] != '{' && ("{{" + a + "}}")[k + 1] != '{'
  {
    if k <= |a| {
      assert ("{" + a + "}")[k] == a[k - 1] && ("{{" + a + "}}")[k + 1] == a[k - 1];
    }
  }

  /** Occurrences of the placeholders of two different plain keys never share
      a character, whether the first is written with single or double braces. */
  lemma PlaceholdersApart(a: string, b: string)
    requires PlainKey(a) && PlainKey(b) && a != b
    ensures Apart("{" + a + "}", "{" + b + "}")
    ensures Apart("{{" + a + "}}", "{" + b + "}")
  {
    var pa, pb, da := "{" + a + "}", "{" + b + "}", "{{" + a + "}}";
    KeysApart(a, b);
    forall k | 0 <= k < |pa|
      ensures !Overlap(pa[k..], pb)
    {
      if k == 0 {
        assert pa[k..] == pa;
      } else {
        OpensOnce(a, k);
        assert pa[k..][0] == pa[k];
      }
    }
    forall m | 0 <= m < |pb|
      ensures !Overlap(pa, pb[m..]) && !Overlap(da, pb[m..])
    {
      if m == 0 {
        assert pb[m..] == pb;
        assert da[1] == '{' && pb[1] == b[0];
      } else {
        OpensOnce(b, m);
        assert pb[m..][0] == pb[m];
      }
    }
    forall k | 0 <= k < |da|
      ensures !Overlap(da[k..], pb)
    {
      if k == 0 {
        assert da[k..] == da;
        assert da[1] == '{' && pb[1] == b[0];
      } else if k == 1 {
        assert pa <= da[k..];
        if Overlap(da[k..], pb) {
          OverlapPrefixes(pa, pb, da[k..], pb);
        }
      } else if k < |da| - 1 {
        OpensOnce(a, k - 1);
        assert da[k..][0] == da[k];
      } else {
        assert da[k..][0] == '}';
      }
    }
  }

  /** A string value that is safe for its placeholder fills every one of them:
      neither the single- nor the double-brace form is left. */
  lemma FillSubstitutes(s: string, key: string, v: Value)
    requires v.Str? && SafeReplacement("{" + key + "}", v.s)
    ensures Fill(s, key, v).Ok?
    ensures !Contains(Fill(s, key, v).value, "{" + key + "}")
    ensures !Contains(Fill(s, key, v).value, "{{" + key + "}}")
  {
    var single, double := "{" + key + "}", "{{" + key + "}}";
    var r := Replace(Replace(s, double, v.s), single, v.s);
    ReplaceLeavesNone(Replace(s, double, v.s), single, v.s);
    NoDoubleWithoutSingle(r, key);
  }

  /** A text without the single-brace placeholder holds no double-brace one. */
  lemma NoDoubleWithoutSingle(s: string, key: string)
    requires !Contains(s, "{" + key + "}")
    ensures !Contains(s, "{{" + key + "}}")
  {
    var single, double := "{" + key + "}", "{{" + key + "}}";
    if Contains(s, double) {
      ContainsPart(s, "{", single + "}");
      ContainsPart(s, single, "}");
      assert false;
    }
  }

  /** Filling a key with a value safe for a pattern `q` creates no `q`. */
  lemma FillAddsNone(s: string, key: string, v: Value, q: string)
    requires Fill(s, key, v).Ok? && !Contains(s, q)
    requires Truthy(v) ==> SafeReplacement(q, v.s)
    ensures !Contains(Fill(s, key, v).value, q)
  {
    if Truthy(v) {
      var double := "{{" + key + "}}";
      ReplaceAddsNone(s, double, v.s, q);
      ReplaceAddsNone(Replace(s, double, v.s), "{" + key + "}", v.s, q);
    }
  }

  /** When the first name and every name filled in after it are safe for
      "{first_name}", the personalised body holds no first-name placeholder
      of either spelling. */
  lemma FirstNameFilled(html: string, contact: Record, name: string)
    requires GetOr(contact, "first_name", Str("")) == Str(name)
    requires SafeReplacement("{first_name}", name)
    requires var last := GetOr(contact, "last_name", Str(""));
      !Truthy(last) || (last.Str? && SafeReplacement("{first_name}", last.s))
    requires SafeReplacement("{first_name}", FullName(contact))
    ensures PersonalizeHtml(html, contact).Ok?
    ensures !Contains(PersonalizeHtml(html, contact).value, "{first_name}")
    ensures !Contains(PersonalizeHtml(html, contact).value, "{{first_name}}")
  {
    PlaceholderSpelling();
    DoubleSpelling();
    var q := "{" + "first_name" + "}";
    var last := GetOr(contact, "last_name", Str(""));
    FillSubstitutes(html, "first_name", Str(name));
    var p1 := Fill(html, "first_name", Str(name)).value;
    FillAddsNone(p1, "last_name", last, q);
    var p2 := Fill(p1, "last_name", last).value;
    FillAddsNone(p2, "full_name", Str(FullName(contact)), q);
    NoDoubleWithoutSingle(PersonalizeHtml(html, contact).value, "first_name");
  }

  /** When the last name and the full name filled in after it are safe for
      "{last_name}", the personalised body holds no last-name placeholder of
      either spelling. */
  lemma LastNameFilled(html: string, contact: Record, name: string)
    requires GetOr(contact, "last_name", Str("")) == Str(name)
    requires SafeReplacement("{last_name}", name)
    requires SafeReplacement("{last_name}", FullName(contact))
    requires PersonalizeHtml(html, contact).Ok?
    ensures !Contains(PersonalizeHtml(html, contact).value, "{last_name}")
    ensures !Contains(PersonalizeHtml(html, contact).value, "{{last_name}}")
  {
    PlaceholderSpelling();
    DoubleSpelling();
    var q := "{" + "last_name" + "}";
    var f1 := Fill(html, "first_name", GetOr(contact, "first_name", Str("")));
    assert f1.Ok?;
    var p1 := f1.value;
    FillSubstitutes(p1, "last_name", Str(name));
    var p2 := Fill(p1, "last_name", Str(name)).value;
    var f3 := Fill(p2, "full_name", Str(FullName(contact)));
    assert PersonalizeHtml(html, contact) == f3;
    FillAddsNone(p2, "full_name", Str(FullName(contact)), q);
    NoDoubleWithoutSingle(f3.value, "last_name");
  }

  /** Filling one plain key keeps every placeholder of another: the filled
      text holds at least as many of them. */
  lemma FillKeeps(s: string, key: string, v: Value, other: string)
    requires PlainKey(key) && PlainKey(other) && key != other
    requires Fill(s, key, v).Ok?
    ensures Occurrences(Fill(s, key, v).value, "{" + other + "}") >= Occurrences(s, "{" + other + "}")
    ensures Contains(s, "{" + other + "}") ==> Contains(Fill(s, key, v).value, "{" + other + "}")
  {
    var q := "{" + other + "}";
    if Truthy(v) {
      PlaceholdersApart(key, other);
      ReplaceKeepsAll(s, "{{" + key + "}}", v.s, q);
      ReplaceKeepsAll(Replace(s, "{{" + key + "}}", v.s), "{" + key + "}", v.s, q);
    }
    OccurrencesContains(s, q);
    OccurrencesContains(Fill(s, key, v).value, q);
  }

  /** An empty or missing last name leaves every "{last_name}" in place: the
      personalised body holds at least as many as the template. */
  lemma EmptyLastNameKept(html: string, contact: Record)
    requires !Truthy(GetOr(contact, "last_name", Str("")))
    requires PersonalizeHtml(html, contact).Ok?
    ensures Occurrences(PersonalizeHtml(html, contact).value, "{last_name}") >= Occurrences(html, "{last_name}")
    ensures Contains(html, "{last_name}") ==> Contains(PersonalizeHtml(html, contact).value, "{last_name}")
  {
    NamesPlain();
    PlaceholderSpelling();
    var first := GetOr(contact, "first_name", Str(""));
    FillKeeps(html, "first_name", first, "last_name");
    FillKeeps(Fill(html, "first_name", first).value, "full_name", Str(FullName(contact)), "last_name");
  }

  /** An empty or missing first name leaves every "{first_name}" in place: the
      personalised body holds at least as many as the template. */
  lemma EmptyFirstNameKept(html: string, contact: Record)
    requires !Truthy(GetOr(contact, "first_name", Str("")))
    requires PersonalizeHtml(html, contact).Ok?
    ensures Occurrences(PersonalizeHtml(html, contact).value, "{first_name}") >= Occurrences(html, "{first_name}")
    ensures Contains(html, "{first_name}") ==> Contains(PersonalizeHtml(html, contact).value, "{first_name}")
  {
    NamesPlain();
    PlaceholderSpelling();
    var last := GetOr(contact, "last_name", Str(""));
    FillKeeps(html, "last_name", last, "first_name");
    FillKeeps(Fill(html, "last_name", last).value, "full_name", Str(FullName(contact)), "first_name");
  }

  /** The double-brace placeholders as `Fill` spells them. */
  lemma DoubleSpelling()
    ensures "{{" + "first_name" + "}}" == "{{first_name}}"
    ensures "{{" + "last_name" + "}}" == "{{last_name}}"
    ensures "{{" + "full_name" + "}}" == "{{full_name}}"
  {
  }

  /** A full name that is safe for its placeholder (no brace, and not itself a
      piece of "{full_name}") fills every "{full_name}" and "{{full_name}}":
      none is left in the personalised body. */
  lemma FullNameFilled(html: string, contact: Record)
    requires SafeReplacement("{full_name}", FullName(contact))
    requires PersonalizeHtml(html, contact).Ok?
    ensures !Contains(PersonalizeHtml(html, contact).value, "{full_name}")
    ensures !Contains(PersonalizeHtml(html, contact).value, "{{full_name}}")
  {
    PlaceholderSpelling();
    DoubleSpelling();
    var first, last := GetOr(contact, "first_name", Str("")), GetOr(contact, "last_name", Str(""));
    var p1 := Fill(html, "first_name", first).value;
    FillSubstitutes(Fill(p1, "last_name", last).value, "full_name", Str(FullName(contact)));
  }

  /** With a first name that is safe for its placeholder and an empty last
      name, the first-name stage fills every first-name placeholder and the
      last-name ones survive to the personalised body. */
  lemma FirstNameOnly(html: string, contact: Record, name: string)
    requires GetOr(contact, "first_name", Str("")) == Str(name)
    requires SafeReplacement("{first_name}", name)
    requires !Truthy(GetOr(contact, "last_name", Str("")))
    ensures Fill(html, "first_name", Str(name)).Ok?
    ensures !Contains(Fill(html, "first_name", Str(name)).value, "{first_name}")
    ensures !Contains(Fill(html, "first_name", Str(name)).value, "{{first_name}}")
    ensures PersonalizeHtml(html, contact).Ok?
    ensures Occurrences(PersonalizeHtml(html, contact).value, "{last_name}") >= Occurrences(html, "{last_name}")
    ensures Contains(html, "{last_name}") ==> Contains(PersonalizeHtml(html, contact).value, "{last_name}")
  {
    PlaceholderSpelling();
    DoubleSpelling();
    FillSubstitutes(html, "first_name", Str(name));
    EmptyLastNameKept(html, contact);
  }

  /** Because the double-brace form is replaced first, "{{first_name}}" becomes
      exactly the first name (for a name without braces). */
  lemma DoubleBraceFirstName(contact: Record, name: string)
    requires GetOr(contact, "first_name", Str("")) == Str(name) && name != [] && '{' !in name
    requires !Truthy(GetOr(contact, "last_name", Str(""))) || GetOr(contact, "last_name", Str("")).Str?
    ensures PersonalizeHtml("{{first_name}}", contact) == Ok(name)
  {
    var double, single := "{{first_name}}", "{first_name}";
    assert "{{" + "first_name" + "}}" == double;
    assert "{" + "first_name" + "}" == single;
    ReplaceFront([], double, name);
    assert double + [] == double && name + [] == name;
    assert Replace(double, double, name) == name;
    NoBraceNoPlaceholder(name, "first_name");
    ReplaceAbsent(name, single, name);
    assert Fill(double, "first_name", Str(name)) == Ok(name);
    var last := GetOr(contact, "last_name", Str(""));
    NoBraceNoPlaceholder(name, "last_name");
    NoBraceNoPlaceholder(name, "full_name");
    FillAbsent(name, "last_name", last);
    FillAbsent(name, "full_name", Str(FullName(contact)));
  }

  /** A first name that is present but null still shows in the full name: the
      full-name placeholder becomes "None Smith". */
  lemma NullFirstNameInFullName(contact: Record)
    requires "first_name" in contact && contact["first_name"] == Null
    requires "last_name" in contact && contact["last_name"] == Str("Smith")
    ensures PersonalizeHtml("{full_name}", contact) == Ok("None Smith")
  {
    NoneSmith(contact);
    NoLastNameInFullName();
    PlaceholderSpelling();
    FillAbsent("{full_name}", "last_name", Str("Smith"));
    FillPlaceholder("full_name", "None Smith");
  }

  /** A text that is just one placeholder becomes the value filled in. */
  lemma FillPlaceholder(key: string, v: string)
    requires v != []
    ensures Fill("{" + key + "}", key, Str(v)) == Ok(v)
  {
    var single := "{" + key + "}";
    ContainsLonger(single, "{{" + key + "}}");
    ReplaceAbsent(single, "{{" + key + "}}", v);
    ReplaceFront([], single, v);
    assert single + [] == single && v + [] == v;
  }

  lemma NoneSmith(contact: Record)
    requires "first_name" in contact && contact["first_name"] == Null
    requires "last_name" in contact && contact["last_name"] == Str("Smith")
    ensures FullName(contact) == "None Smith"
  {
    var full := "None Smith";
    assert Shown(Null) + " " + "Smith" == full;
    TrimNone(full, IsSpace);
  }

  /** "{full_name}" holds no last-name placeholder. */
  lemma NoLastNameInFullName()
    ensures !Contains("{full_name}", "{" + "last_name" + "}")
  {
    var body, last := "{full_name}", "{" + "last_name" + "}";
    assert |body| == |last| && body[1] != last[1];
    ContainsDiffer(body, last, 1);
  }

  /** Without any name, every placeholder is left as it is. */
  lemma NoNameNoChange(html: string, contact: Record)
    requires !Truthy(GetOr(contact, "first_name", Str(""))) && !Truthy(GetOr(contact, "last_name", Str("")))
    requires FullName(contact) == []
    ensures PersonalizeHtml(html, contact) == Ok(html)
  {
  }

  // ---------------------------------------------------------------- one contact

  /** What one call of `send_to_contact` did: whether it reports a send, and
      the calls it made in order. */
  datatype Attempt = Attempt(ok: bool, effects: seq<Effect>)

  /** An attempt that first made the calls `pre`. */
  function After(pre: seq<Effect>, a: Attempt): Attempt {
    Attempt(a.ok, pre + a.effects)
  }

  /** The closing pair of calls of a successful attempt: the send, accepted by
      Gmail, and the ledger entry recording exactly what was sent. */
  predicate LoggedAfterMail(s: Sender, w: World, contact: int, campaign: int, mail: Effect, log: Effect) {
    && mail.Mailed?
    && w.mail(mail.to, mail.subject, mail.body)
    && log == Logged(LogEntry(campaign, contact, "email", mail.subject, mail.body, Some(s.senderEmail)))
  }

  /** The rules every attempt keeps: it never pauses, mails at most once, logs
      exactly when it reports a send, and then the log entry is its last call
      and follows the accepted send it records. */
  predicate Sound(s: Sender, w: World, contact: int, campaign: int, a: Attempt) {
    && Count(a.effects, SleepCall) == 0
    && Count(a.effects, MailCall) <= 1
    && Count(a.effects, LogCall) == (if a.ok then 1 else 0)
    && (a.ok ==> |a.effects| >= 2 && LoggedAfterMail(s, w, contact, campaign, a.effects[|a.effects| - 2], a.effects[|a.effects| - 1]))
  }

  /** Calls that neither pause, mail nor log keep an attempt sound. */
  lemma AfterSound(s: Sender, w: World, contact: int, campaign: int, pre: seq<Effect>, a: Attempt)
    requires Sound(s, w, contact, campaign, a)
    requires Count(pre, SleepCall) == 0 && Count(pre, MailCall) == 0 && Count(pre, LogCall) == 0
    ensures Sound(s, w, contact, campaign, After(pre, a))
  {
    var e := pre + a.effects;
    assert After(pre, a) == Attempt(a.ok, e);
    CountAppend(pre, a.effects, SleepCall);
    CountAppend(pre, a.effects, MailCall);
    CountAppend(pre, a.effects, LogCall);
    if a.ok {
      var n := |a.effects|;
      assert e[|e| - 2] == a.effects[n - 2];
      assert e[|e| - 1] == a.effects[n - 1];
      assert LoggedAfterMail(s, w, contact, campaign, e[|e| - 2], e[|e| - 1]);
    }
  }

  /** The send and, when Gmail accepts it, the ledger entry. */
  function Delivery(s: Sender, w: World, contact: int, campaign: int, to: string, subject: Value, body: string): (a: Attempt)
    ensures Sound(s, w, contact, campaign, a)
    ensures a.ok == w.mail(to, subject, body)
    ensures a.effects != [] && a.effects[0] == Mailed(to, subject, body)
  {
    var mailed := [Mailed(to, subject, body)];
    if w.mail(to, subject, body) then
      var logged := mailed + [Logged(LogEntry(campaign, contact, "email", subject, body, Some(s.senderEmail)))];
      assert Count(logged, LogCall) == 1 by {
        CountAppend(mailed, [logged[1]], LogCall);
      }
      assert Count(logged, MailCall) == 1 by {
        CountAppend(mailed, [logged[1]], MailCall);
      }
      assert Count(logged, SleepCall) == 0 by {
        CountAppend(mailed, [logged[1]], SleepCall);
      }
      Attempt(true, logged)
    else Attempt(false, mailed)
  }

  /** Everything after the ledger check: fetch the contact, resolve its
      address, fetch the campaign content, personalise, then deliver. */
  function Reached(s: Sender, w: World, contact: int, campaign: int): (a: Attempt)
    ensures Sound(s, w, contact, campaign, a)
    ensures a.effects != [] && a.effects[0] == Fetched(ContactUrl(w, Int(contact)))
  {
    var fetched := [Fetched(ContactUrl(w, Int(contact)))];
    var record := GetContact(w, Int(contact));
    if record.Raised? || !record.value.Dict? then Attempt(false, fetched)
    else
      var to := EmailFromContact(record.value.fields);
      if to.Raised? then Attempt(false, fetched)
      else
        var read := fetched + [Fetched(CampaignUrl(w, Int(campaign)))];
        var content := GetCampaignEmailContent(w, Int(campaign));
        assert Count(read, SleepCall) == 0 && Count(read, MailCall) == 0 && Count(read, LogCall) == 0;
        if content.Raised? then Attempt(false, read)
        else
          var body := PersonalizeHtml(content.value.html, record.value.fields);
          if body.Raised? then Attempt(false, read)
          else
            var d := Delivery(s, w, contact, campaign, to.value, content.value.subject, body.value);
            AfterSound(s, w, contact, campaign, read, d);
            After(read, d)
  }

  /** The specification of `send_to_contact(contact, campaign)`: check the
      ledger, and unless the contact is listed there (or the check raises) go
      on with the fetches, the send and the log. Every exception ends the
      attempt with `false`. */
  function Attempted(s: Sender, w: World, contact: int, campaign: int): (a: Attempt)
    ensures Sound(s, w, contact, campaign, a)
    ensures a.effects != [] && a.effects[0] == CheckedLedger(campaign, contact, "email")
  {
    var check := [CheckedLedger(campaign, contact, "email")];
    var dedup := w.contacted(campaign, contact, "email");
    if dedup.Raised? || dedup.value then Attempt(false, check)
    else
      var r := Reached(s, w, contact, campaign);
      AfterSound(s, w, contact, campaign, check, r);
      After(check, r)
  }

  /** An id already in the ledger ends the attempt at once, before any fetch
      or send; a dedup check that raises ends it the same way. */
  lemma AlreadyContacted(s: Sender, w: World, contact: int, campaign: int)
    requires w.contacted(campaign, contact, "email") == Ok(true) || w.contacted(campaign, contact, "email").Raised?
    ensures Attempted(s, w, contact, campaign) == Attempt(false, [CheckedLedger(campaign, contact, "email")])
  {
  }

  /** `send_to_contact(contact, campaign)` */
  method SendToContact(s: Sender, w: World, contact: int, campaign: int) returns (ok: bool, effects: seq<Effect>)
    ensures Attempt(ok, effects) == Attempted(s, w, contact, campaign)
  {
    var check := [CheckedLedger(campaign, contact, "email")];
    var dedup := w.contacted(campaign, contact, "email");
    if dedup.Raised? || dedup.value {
      return false, check;
    }
    ghost var rest := Reached(s, w, contact, campaign);
    assert Attempted(s, w, contact, campaign) == After(check, rest);
    var fetched := [Fetched(ContactUrl(w, Int(contact)))];
    var record := GetContact(w, Int(contact));
    if record.Raised? || !record.value.Dict? {
      assert rest == Attempt(false, fetched);
      return false, check + fetched;
    }
    var to := EmailFromContact(record.value.fields);
    if to.Raised? {
      assert rest == Attempt(false, fetched);
      return false, check + fetched;
    }
    var read := fetched + [Fetched(CampaignUrl(w, Int(campaign)))];
    var content := GetCampaignEmailContent(w, Int(campaign));
    if content.Raised? {
      assert rest == Attempt(false, read);
      return false, check + read;
    }
    var body := PersonalizeHtml(content.value.html, record.value.fields);
    if body.Raised? {
      assert rest == Attempt(false, read);
      return false, check + read;
    }
    ghost var d := Delivery(s, w, contact, campaign, to.value, content.value.subject, body.value);
    assert rest == After(read, d);
    ok := w.mail(to.value, content.value.subject, body.value);
    var mailed := [Mailed(to.value, content.value.subject, body.value)];
    if ok {
      var entry := LogEntry(campaign, contact, "email", content.value.subject, body.value, Some(s.senderEmail));
      assert d == Attempt(true, mailed + [Logged(entry)]);
      effects := check + (read + (mailed + [Logged(entry)]));
    } else {
      assert d == Attempt(false, mailed);
      effects := check + (read + mailed);
    }
  }

  // ---------------------------------------------------------------- the campaign

  /** What a campaign run returns (or raises) and the calls it made. */
  datatype Run = Run(result: Result<int>, effects: seq<Effect>)

  /** A run that first made the calls `pre` and counted `n` sends, then went on as `r`. */
  function Then(n: int, pre: seq<Effect>, r: Run): Run {
    Run(if r.result.Ok? then Ok(n + r.result.value) else r.result, pre + r.effects)
  }

  lemma ThenTwice(n: int, pre: seq<Effect>, m: int, pre2: seq<Effect>, r: Run)
    ensures Then(n, pre, Then(m, pre2, r)) == Then(n + m, pre + pre2, r)
  {
    assert pre + (pre2 + r.effects) == (pre + pre2) + r.effects;
  }

  /** The attempt for every contact of `ids`, in order. */
  function Attempts(s: Sender, w: World, campaign: int, ids: seq<int>): (attempts: seq<Attempt>)
    ensures |attempts| == |ids|
  {
    seq(|ids|, i requires 0 <= i < |ids| => Attempted(s, w, ids[i], campaign))
  }

  lemma AttemptAt(s: Sender, w: World, campaign: int, ids: seq<int>, i: nat)
    requires i < |ids|
    ensures Attempts(s, w, campaign, ids)[i] == Attempted(s, w, ids[i], campaign)
  {
  }

  /** Attempts each of which makes a call and none of which pauses on its own. */
  predicate Unpaused(attempts: seq<Attempt>) {
    forall i :: 0 <= i < |attempts| ==> attempts[i].effects != [] && Count(attempts[i].effects, SleepCall) == 0
  }

  lemma AttemptsUnpaused(s: Sender, w: World, campaign: int, ids: seq<int>)
    ensures Unpaused(Attempts(s, w, campaign, ids))
  {
    var attempts := Attempts(s, w, campaign, ids);
    forall i | 0 <= i < |attempts| ensures attempts[i].effects != [] && Count(attempts[i].effects, SleepCall) == 0 {
      AttemptAt(s, w, campaign, ids, i);
      assert Sound(s, w, ids[i], campaign, Attempted(s, w, ids[i], campaign));
    }
  }

  /** The campaign loop from the `j`-th attempt on: count the successes, and
      pause between two contacts (never after the last). The pause after the
      `j`-th contact is chosen by `draws(j)`; a pause that cannot be taken
      raises out of the run. */
  function Sends(s: Sender, attempts: seq<Attempt>, draws: nat -> nat, j: nat): Run
    requires j <= |attempts|
    decreases |attempts| - j
  {
    if j == |attempts| then Run(Ok(0), [])
    else
      var a := attempts[j];
      var hit := if a.ok then 1 else 0;
      if j + 1 < |attempts| then
        var pause := JitterDelay(s.minDelayMs, s.maxDelayMs, draws(j));
        if pause.Raised? then Run(Raised(pause.error), a.effects)
        else Then(hit, a.effects + [Slept(pause.value)], Sends(s, attempts, draws, j + 1))
      else Run(Ok(hit), a.effects)
  }

  /** The specification of `run_campaign(campaign, ids)`: fetch the campaign and
      its content (either failure ends the run with 0), then send to every
      contact in order. */
  function Campaign(s: Sender, w: World, campaign: int, ids: seq<int>, draws: nat -> nat): Run {
    var first := [Fetched(CampaignUrl(w, Int(campaign)))];
    var data := GetCampaign(w, Int(campaign));
    if data.Raised? || !data.value.Dict? then Run(Ok(0), first)
    else
      var second := first + [Fetched(CampaignUrl(w, Int(campaign)))];
      if GetCampaignEmailContent(w, Int(campaign)).Raised? then Run(Ok(0), second)
      else Then(0, second, Sends(s, Attempts(s, w, campaign, ids), draws, 0))
  }

  /** The number of attempts from the `j`-th on that report a send. */
  function Successes(attempts: seq<Attempt>, j: nat): (n: nat)
    requires j <= |attempts|
    ensures n <= |attempts| - j
    decreases |attempts| - j
  {
    if j == |attempts| then 0
    else (if attempts[j].ok then 1 else 0) + Successes(attempts, j + 1)
  }

  /** A pause range every draw can be taken from. */
  predicate PausesWork(s: Sender) {
    0 <= s.minDelayMs <= s.maxDelayMs
  }

  /** With a workable pause range the loop counts exactly the successful attempts. */
  lemma {:induction false} SendsSucceeds(s: Sender, attempts: seq<Attempt>, draws: nat -> nat, j: nat)
    requires j <= |attempts| && PausesWork(s)
    ensures Sends(s, attempts, draws, j).result == Ok(Successes(attempts, j))
    decreases |attempts| - j
  {
    if j + 1 < |attempts| {
      assert JitterDelay(s.minDelayMs, s.maxDelayMs, draws(j)).Ok?;
      SendsSucceeds(s, attempts, draws, j + 1);
    }
  }

  /** With a workable pause range the loop pauses once between each two
      contacts, and never pauses last. */
  lemma {:induction false} SendsPauses(s: Sender, attempts: seq<Attempt>, draws: nat -> nat, j: nat)
    requires j <= |attempts| && PausesWork(s) && Unpaused(attempts)
    ensures Count(Sends(s, attempts, draws, j).effects, SleepCall) == if j < |attempts| then |attempts| - j - 1 else 0
    ensures j < |attempts| ==> var e := Sends(s, attempts, draws, j).effects; e != [] && !e[|e| - 1].Slept?
    decreases |attempts| - j
  {
    if j + 1 < |attempts| {
      var a := attempts[j];
      var pause := JitterDelay(s.minDelayMs, s.maxDelayMs, draws(j));
      SendsPauses(s, attempts, draws, j + 1);
      var rest := Sends(s, attempts, draws, j + 1).effects;
      var e := Sends(s, attempts, draws, j).effects;
      assert e == (a.effects + [Slept(pause.value)]) + rest;
      PausedTurnCount(a.effects, pause.value, rest);
      assert e[|e| - 1] == rest[|rest| - 1];
    } else if j + 1 == |attempts| {
      var e := attempts[j].effects;
      assert !OfKind(e[|e| - 1], SleepCall);
    }
  }

  /** The pauses of a turn that pauses once, followed by the rest of the run. */
  lemma PausedTurnCount(a: seq<Effect>, ms: int, rest: seq<Effect>)
    requires Count(a, SleepCall) == 0
    ensures Count((a + [Slept(ms)]) + rest, SleepCall) == 1 + Count(rest, SleepCall)
  {
    CountAppend(a, [Slept(ms)], SleepCall);
    CountAppend(a + [Slept(ms)], rest, SleepCall);
  }

  /** With a workable pause range the loop counts the successful attempts and
      pauses once between each two of them. */
  lemma SendsCount(s: Sender, attempts: seq<Attempt>, draws: nat -> nat)
    requires PausesWork(s) && Unpaused(attempts)
    ensures Sends(s, attempts, draws, 0).result == Ok(Successes(attempts, 0))
    ensures Count(Sends(s, attempts, draws, 0).effects, SleepCall) == if attempts == [] then 0 else |attempts| - 1
  {
    SendsSucceeds(s, attempts, draws, 0);
    SendsPauses(s, attempts, draws, 0);
  }

  /** `run_campaign` sends to every contact and counts at most one success each,
      pausing between contacts exactly `len - 1` times. */
  lemma CampaignCounts(s: Sender, w: World, campaign: int, ids: seq<int>, draws: nat -> nat)
    requires PausesWork(s)
    ensures Campaign(s, w, campaign, ids, draws).result.Ok?
    ensures Campaign(s, w, campaign, ids, draws).result.value <= |ids|
    ensures var data := GetCampaign(w, Int(campaign));
      data.Ok? && data.value.Dict? && GetCampaignEmailContent(w, Int(campaign)).Ok? ==>
        && Campaign(s, w, campaign, ids, draws).result.value == Successes(Attempts(s, w, campaign, ids), 0)
        && Count(Campaign(s, w, campaign, ids, draws).effects, SleepCall) == if ids == [] then 0 else |ids| - 1
  {
    var attempts := Attempts(s, w, campaign, ids);
    AttemptsUnpaused(s, w, campaign, ids);
    SendsCount(s, attempts, draws);
    var data := GetCampaign(w, Int(campaign));
    if data.Ok? && data.value.Dict? && GetCampaignEmailContent(w, Int(campaign)).Ok? {
      var second := [Fetched(CampaignUrl(w, Int(campaign)))] + [Fetched(CampaignUrl(w, Int(campaign)))];
      var rest := Sends(s, attempts, draws, 0);
      assert Campaign(s, w, campaign, ids, draws) == Then(0, second, rest);
      ThenPauses(second, rest);
    }
  }

  /** Two fetches before a run add no pause to it. */
  lemma ThenPauses(pre: seq<Effect>, r: Run)
    requires |pre| == 2 && pre[0].Fetched? && pre[1].Fetched?
    ensures Count(Then(0, pre, r).effects, SleepCall) == Count(r.effects, SleepCall)
  {
    CountAppend(pre, r.effects, SleepCall);
  }

  /** A turn of the loop that pauses, seen from a run that has made the calls
      `pre` and counted `sent` sends. */
  lemma TurnPauses(s: Sender, attempts: seq<Attempt>, draws: nat -> nat, j: nat, sent: int, pre: seq<Effect>)
    requires j + 1 < |attempts| && JitterDelay(s.minDelayMs, s.maxDelayMs, draws(j)).Ok?
    ensures var a := attempts[j];
      var ms := JitterDelay(s.minDelayMs, s.maxDelayMs, draws(j)).value;
      Then(sent, pre, Sends(s, attempts, draws, j)) ==
        Then(sent + (if a.ok then 1 else 0), pre + (a.effects + [Slept(ms)]), Sends(s, attempts, draws, j + 1))
  {
    var a := attempts[j];
    var ms := JitterDelay(s.minDelayMs, s.maxDelayMs, draws(j)).value;
    ThenTwice(sent, pre, if a.ok then 1 else 0, a.effects + [Slept(ms)], Sends(s, attempts, draws, j + 1));
  }

  /** The loop of `run_campaign`: send to every contact in order, counting the
      sends Gmail accepted, with a pause between two contacts. */
  method SendAll(s: Sender, w: World, campaign: int, ids: seq<int>, draws: nat -> nat)
    returns (r: Result<int>, effects: seq<Effect>)
    ensures Run(r, effects) == Sends(s, Attempts(s, w, campaign, ids), draws, 0)
  {
    ghost var attempts := Attempts(s, w, campaign, ids);
    ghost var goal := Sends(s, attempts, draws, 0);
    assert goal == Then(0, [], goal);
    if ids == [] {
      return Ok(0), [];
    }
    var sent := 0;
    var j := 0;
    effects := [];
    while j + 1 < |ids|
      invariant j < |ids|
      invariant goal == Then(sent, effects, Sends(s, attempts, draws, j))
    {
      var ok, e := SendToContact(s, w, ids[j], campaign);
      AttemptAt(s, w, campaign, ids, j);
      var pause := JitterDelay(s.minDelayMs, s.maxDelayMs, draws(j));
      if pause.Raised? {
        return Raised(pause.error), effects + e;
      }
      TurnPauses(s, attempts, draws, j, sent, effects);
      effects := effects + (e + [Slept(pause.value)]);
      sent := sent + if ok then 1 else 0;
      j := j + 1;
    }
    var ok, e := SendToContact(s, w, ids[j], campaign);
    AttemptAt(s, w, campaign, ids, j);
    return Ok(sent + if ok then 1 else 0), effects + e;
  }

  /** `run_campaign(campaign, ids)`: the pause after the `j`-th contact is
      `draws(j)` milliseconds into the configured range. */
  method RunCampaign(s: Sender, w: World, campaign: int, ids: seq<int>, draws: nat -> nat)
    returns (r: Result<int>, effects: seq<Effect>)
    ensures Run(r, effects) == Campaign(s, w, campaign, ids, draws)
    ensures GetCampaign(w, Int(campaign)).Raised? || GetCampaignEmailContent(w, Int(campaign)).Raised? ==>
      r == Ok(0) && Count(effects, MailCall) == 0
  {
    effects := [Fetched(CampaignUrl(w, Int(campaign)))];
    var data := GetCampaign(w, Int(campaign));
    if data.Raised? || !data.value.Dict? {
      return Ok(0), effects;
    }
    effects := effects + [Fetched(CampaignUrl(w, Int(campaign)))];
    var content := GetCampaignEmailContent(w, Int(campaign));
    if content.Raised? {
      return Ok(0), effects;
    }
    var sent, rest := SendAll(s, w, campaign, ids, draws);
    r := if sent.Ok? then Ok(0 + sent.value) else sent;
    effects := effects + rest;
  }
}
