/** The outreach entry points: the HTTP route that picks a campaign runner by
    contact-method code, the two renderers, and the two loops that walk a
    campaign's contact-method rows, hand each reachable contact to a send call
    and pause after every send. The send calls themselves are outside this
    model: each is recorded as a `DispatchedEmail` or `DispatchedLinkedIn`
    call and taken to return. */
module OutreachMain {
  import opened Text
  import opened Values
  import opened Backend
  import opened ApiClient

  // ---------------------------------------------------------------- run_campaign route

  /** What the route answers: which runner it starts, for which campaign id,
      and the message it replies with. */
  datatype Reply = Reply(started: Option<Channel>, campaign: Value, message: string)

  /** The `/run_campaign` route on the request body `data`. */
  function RouteRequest(data: Record): (r: Reply)
    ensures r.campaign == Get(data, "campaign_id")
    ensures r.started == Some(Email) <==> Get(data, "contact_method") == Int(2)
    ensures r.started == Some(LinkedIn) <==> Get(data, "contact_method") == Int(4)
    ensures r.started == None ==> r.message == "Invalid contact method"
    ensures r.started == Some(Email) ==> r.message == "Email campaign " + Shown(r.campaign) + " sent!"
    ensures r.started == Some(LinkedIn) ==> r.message == "LinkedIn campaign " + Shown(r.campaign) + " sent!"
  {
    var id := Get(data, "campaign_id");
    match RouteCode(Get(data, "contact_method"))
    case Some(Email) => Reply(Some(Email), id, "Email campaign " + Shown(id) + " sent!")
    case Some(LinkedIn) => Reply(Some(LinkedIn), id, "LinkedIn campaign " + Shown(id) + " sent!")
    case None => Reply(None, id, "Invalid contact method")
  }

  /** A request carrying the configured LinkedIn code starts nothing, while
      one carrying the configured e-mail code starts the e-mail runner. */
  lemma ConfiguredLinkedInCodeRejected(data: Record)
    ensures Get(data, "contact_method") == Int(ConfigCode(LinkedIn)) ==>
      RouteRequest(data).started == None && RouteRequest(data).message == "Invalid contact method"
    ensures Get(data, "contact_method") == Int(ConfigCode(Email)) ==> RouteRequest(data).started == Some(Email)
  {
    CodesDisagree();
  }

  // ---------------------------------------------------------------- renderers

  /** `render_email(campaign, contact)`: the campaign's subject and body as stored. */
  function RenderEmail(campaign: Record, contact: Record): (r: (Value, Value))
    ensures r.0 == (if "email_subject" in campaign then campaign["email_subject"] else Null)
    ensures r.1 == (if "email_body" in campaign then campaign["email_body"] else Null)
  {
    (Get(campaign, "email_subject"), Get(campaign, "email_body"))
  }

  /** The e-mail text does not depend on the contact. */
  lemma RenderEmailIgnoresContact(campaign: Record, a: Record, b: Record)
    ensures RenderEmail(campaign, a) == RenderEmail(campaign, b)
  {
    assert RenderEmail(campaign, a).0 == RenderEmail(campaign, b).0;
  }

  /** The fixed parts of the LinkedIn template around the two inserted values. */
  const Greeting: string := "Hi "
  const Praise: string := ", loved seeing your work around SD Climate Week. "
  const Pitch: string := "We’re working on \""
  const Closer: string := "\" — quick intro?"

  /** `render_linkedin(campaign, contact)`: the fixed template with the
      contact's `first_name` and the campaign's `name`, each defaulting to
      the empty string only when the key is absent. */
  function RenderLinkedIn(campaign: Record, contact: Record): (r: string)
    ensures |r| == |Greeting| + |Shown(GetOr(contact, "first_name", Str("")))| + |Praise| + |Pitch|
      + |Shown(GetOr(campaign, "name", Str("")))| + |Closer|
  {
    Greeting + Shown(GetOr(contact, "first_name", Str(""))) + Praise
      + Pitch + Shown(GetOr(campaign, "name", Str(""))) + Closer
  }

  /** The rendered message reads back as the template: the greeting, the
      first name, the fixed middle, the campaign name and the closing words,
      in that order and nothing else. */
  lemma RenderLinkedInParts(campaign: Record, contact: Record)
    ensures var r := RenderLinkedIn(campaign, contact);
      var first := Shown(GetOr(contact, "first_name", Str("")));
      var name := Shown(GetOr(campaign, "name", Str("")));
      var m := |Greeting| + |first|;
      var n := m + |Praise| + |Pitch|;
      && r[..|Greeting|] == Greeting
      && r[|Greeting|..m] == first
      && r[m..n] == Praise + Pitch
      && r[n..n + |name|] == name
      && r[n + |name|..] == Closer
  {
    var first := Shown(GetOr(contact, "first_name", Str("")));
    var name := Shown(GetOr(campaign, "name", Str("")));
    SixParts(Greeting, first, Praise, Pitch, name, Closer);
  }


  /** A contact whose `first_name` is stored as null is greeted as "None",
      because the default applies only to a missing key. */
  lemma NullFirstNameGreeting(campaign: Record, contact: Record)
    requires "first_name" in contact && contact["first_name"] == Null
    ensures RenderLinkedIn(campaign, contact)[..7] == "Hi None"
  {
    RenderLinkedInParts(campaign, contact);
    var r := RenderLinkedIn(campaign, contact);
    assert r[..7] == r[..3] + r[3..7];
  }

  // ---------------------------------------------------------------- one row

  /** `row["contact"]`: only an object with that key gives the contact id. */
  function RowContact(row: Value): (r: Result<Value>)
    ensures r.Ok? <==> row.Dict? && "contact" in row.fields
    ensures r.Ok? ==> r.value == row.fields["contact"]
    ensures r.Raised? ==> r.error == (if row.Dict? then KeyError else TypeError)
  {
    if !row.Dict? then Raised(TypeError)
    else if "contact" in row.fields then Ok(row.fields["contact"])
    else Raised(KeyError)
  }

  /** The address a runner reads from a contact, stripped: the `email` field
      for e-mail, `linkedin` or else `linkedin_url` for LinkedIn; a missing
      or falsy field reads as "", a truthy non-string has no `strip`. */
  function Address(channel: Channel, contact: Record): (r: Result<string>)
    ensures r.Ok? ==> Trimmed(r.value)
    ensures r.Raised? ==> r.error == AttributeError
  {
    var field := match channel
      case Email => Or(Get(contact, "email"), Str(""))
      case LinkedIn => Or(Or(Get(contact, "linkedin"), Get(contact, "linkedin_url")), Str(""));
    if field.Str? then StripTrimmed(field.s); Ok(Strip(field.s)) else Raised(AttributeError)
  }

  /** The address a truthy field gives: its stripped text, or an
      AttributeError when it is not a string. */
  function StrippedField(v: Value): Result<string> {
    if v.Str? then Ok(Strip(v.s)) else Raised(AttributeError)
  }

  /** Which field `Address` reads: for e-mail `email`; for LinkedIn `linkedin`
      when it is truthy, else `linkedin_url`; "" when every candidate is falsy. */
  lemma AddressPriority(channel: Channel, contact: Record)
    ensures channel == Email && Truthy(Get(contact, "email")) ==>
      Address(channel, contact) == StrippedField(Get(contact, "email"))
    ensures channel == Email && !Truthy(Get(contact, "email")) ==> Address(channel, contact) == Ok("")
    ensures channel == LinkedIn && Truthy(Get(contact, "linkedin")) ==>
      Address(channel, contact) == StrippedField(Get(contact, "linkedin"))
    ensures channel == LinkedIn && !Truthy(Get(contact, "linkedin")) && Truthy(Get(contact, "linkedin_url")) ==>
      Address(channel, contact) == StrippedField(Get(contact, "linkedin_url"))
    ensures channel == LinkedIn && !Truthy(Get(contact, "linkedin")) && !Truthy(Get(contact, "linkedin_url")) ==>
      Address(channel, contact) == Ok("")
  {
    var empty: string := [];
    assert Strip(empty) == [];
  }

  /** How one row ended: skipped for want of an address, handed to the send
      call, or raised; with the calls it made. */
  datatype RowEnd = Skipped(effects: seq<Effect>) | Dispatched(effects: seq<Effect>) | Crashed(error: Error, effects: seq<Effect>)

  /** The send call a runner makes for a contact with address `to`. */
  function SendCall(channel: Channel, campaign: Record, contact: Record, to: string, actuallySend: bool): (e: Effect)
    ensures OfKind(e, DispatchCall)
  {
    match channel
    case Email =>
      var (subject, body) := RenderEmail(campaign, contact);
      DispatchedEmail(subject, body, to)
    case LinkedIn => DispatchedLinkedIn(to, RenderLinkedIn(campaign, contact), actuallySend)
  }

  /** The body of the runners' loop for one row, up to the pause: read the
      contact id, fetch the contact (a falsy answer reads as `{}`), read its
      address, and skip the row or make the send call. */
  function Row(channel: Channel, w: World, campaign: Record, row: Value, actuallySend: bool): (r: RowEnd)
    ensures r.Skipped? ==> |r.effects| == 1 && r.effects[0].Fetched?
    ensures r.Dispatched? ==> (
      && |r.effects| == 2 && r.effects[0].Fetched? && OfKind(r.effects[1], DispatchCall)
      && (channel == LinkedIn ==> r.effects[1].DispatchedLinkedIn? && r.effects[1].actuallySend == actuallySend))
  {
    match RowContact(row)
    case Raised(e) => Crashed(e, [])
    case Ok(id) =>
      var fetched := [Fetched(ContactUrl(w, id))];
      match Contact(w, id)
      case Raised(e) => Crashed(e, fetched)
      case Ok(contact) =>
        match Address(channel, contact)
        case Raised(e) => Crashed(e, fetched)
        case Ok(to) =>
          if to == [] then Skipped(fetched)
          else Dispatched(fetched + [SendCall(channel, campaign, contact, to, actuallySend)])
  }

  /** `get_contact(id) or {}` followed by the first `.get` on it. */
  function Contact(w: World, id: Value): (r: Result<Record>)
    ensures GetContact(w, id).Raised? ==> r == Raised(HttpError)
    ensures r.Ok? ==> GetContact(w, id).Ok? && (GetContact(w, id).value.Dict? || !Truthy(GetContact(w, id).value))
  {
    var got :- GetContact(w, id);
    AsRecord(Or(got, Dict(map[], "{}")))
  }

  /** What the contact lookup reads: an empty record for a falsy answer, the
      fields of an object, and an AttributeError for any other truthy answer. */
  lemma ContactCases(w: World, id: Value)
    ensures GetContact(w, id).Ok? && !Truthy(GetContact(w, id).value) ==> Contact(w, id) == Ok(map[])
    ensures GetContact(w, id).Ok? && GetContact(w, id).value.Dict? && Truthy(GetContact(w, id).value) ==>
      Contact(w, id) == Ok(GetContact(w, id).value.fields)
    ensures GetContact(w, id).Ok? && !GetContact(w, id).value.Dict? && Truthy(GetContact(w, id).value) ==>
      Contact(w, id) == Raised(AttributeError)
  {
  }

  /** How each row ends: it raises when its id, its contact or its address
      does; it is skipped when the address is empty; otherwise the contact is
      fetched and the send call made with the address. */
  lemma RowCases(channel: Channel, w: World, campaign: Record, row: Value, actuallySend: bool)
    ensures var r := Row(channel, w, campaign, row, actuallySend);
      && (r.Crashed? <==> (RowContact(row).Raised? || Contact(w, RowContact(row).value).Raised?
        || Address(channel, Contact(w, RowContact(row).value).value).Raised?))
      && (r.Skipped? <==> (RowContact(row).Ok? && Contact(w, RowContact(row).value).Ok?
        && Address(channel, Contact(w, RowContact(row).value).value) == Ok("")))
      && (r.Dispatched? ==> (
        var contact := Contact(w, RowContact(row).value).value;
        var to := Address(channel, contact).value;
        && to != []
        && r.effects == [Fetched(ContactUrl(w, RowContact(row).value)), SendCall(channel, campaign, contact, to, actuallySend)]))
  {
  }

  /** A row is skipped exactly when the contact's address strips to nothing. */
  lemma SkippedIffBlank(channel: Channel, w: World, campaign: Record, row: Value, actuallySend: bool, contact: Record, field: string)
    requires RowContact(row).Ok? && Contact(w, RowContact(row).value) == Ok(contact)
    requires channel == Email ==> Or(Get(contact, "email"), Str("")) == Str(field)
    requires channel == LinkedIn ==> Or(Or(Get(contact, "linkedin"), Get(contact, "linkedin_url")), Str("")) == Str(field)
    ensures Row(channel, w, campaign, row, actuallySend).Skipped? <==> forall k :: 0 <= k < |field| ==> IsSpace(field[k])
    ensures !Row(channel, w, campaign, row, actuallySend).Crashed?
  {
    StripEmptyIff(field);
    assert Address(channel, contact) == Ok(Strip(field));
  }

  // ---------------------------------------------------------------- the runners' loop

  /** How each of the rows ends. */
  function Ends(channel: Channel, w: World, campaign: Record, rows: seq<Value>, actuallySend: bool): (ends: seq<RowEnd>)
    ensures |ends| == |rows|
  {
    if rows == [] then []
    else [Row(channel, w, campaign, rows[0], actuallySend)] + Ends(channel, w, campaign, rows[1..], actuallySend)
  }

  /** Row `i` ends as `Row` says of it. */
  lemma {:induction false} EndAt(channel: Channel, w: World, campaign: Record, rows: seq<Value>, actuallySend: bool, i: nat)
    requires i < |rows|
    ensures Ends(channel, w, campaign, rows, actuallySend)[i] == Row(channel, w, campaign, rows[i], actuallySend)
  {
    if i > 0 {
      EndAt(channel, w, campaign, rows[1..], actuallySend, i - 1);
      assert rows[1..][i - 1] == rows[i];
    }
  }

  /** The calls of a skipped row are its contact fetch; those of a dispatched
      row, the fetch and then the send call. */
  predicate Shaped(r: RowEnd) {
    && (r.Skipped? ==> |r.effects| == 1 && r.effects[0].Fetched?)
    && (r.Dispatched? ==> |r.effects| == 2 && r.effects[0].Fetched? && OfKind(r.effects[1], DispatchCall))
  }

  lemma EndsShaped(channel: Channel, w: World, campaign: Record, rows: seq<Value>, actuallySend: bool)
    ensures forall i :: 0 <= i < |rows| ==> Shaped(Ends(channel, w, campaign, rows, actuallySend)[i])
  {
    var ends := Ends(channel, w, campaign, rows, actuallySend);
    forall i | 0 <= i < |ends|
      ensures Shaped(ends[i])
    {
      EndAt(channel, w, campaign, rows, actuallySend, i);
    }
  }

  /** The count a runner returns (or the exception it raises) and its calls. */
  datatype Pass = Pass(result: Result<int>, effects: seq<Effect>)

  /** `p` after `n` sends and the calls `pre`. */
  function After(n: int, pre: seq<Effect>, p: Pass): Pass {
    Pass(if p.result.Ok? then Ok(n + p.result.value) else p.result, pre + p.effects)
  }

  lemma AfterNothing(n: int, pre: seq<Effect>)
    ensures After(n, pre, Pass(Ok(0), [])) == Pass(Ok(n), pre)
  {
    assert pre + [] == pre;
  }

  lemma AfterTwice(n: int, pre: seq<Effect>, m: int, pre2: seq<Effect>, p: Pass)
    ensures After(n, pre, After(m, pre2, p)) == After(n + m, pre + pre2, p)
  {
    assert pre + (pre2 + p.effects) == (pre + pre2) + p.effects;
  }

  /** The specification of the runners' loop from row `j` on, after `k`
      sends, for rows that end as `ends` say; the pause after the `k`-th send
      is `JitterDelay(lo, hi, draws(k))`. Every send is followed by a pause,
      the last one as well, and a skip by none; an exception anywhere ends
      the runner. */
  function Rows(ends: seq<RowEnd>, lo: int, hi: int, draws: nat -> nat, k: nat, j: nat): (p: Pass)
    requires j <= |ends|
    decreases |ends| - j
  {
    if j == |ends| then Pass(Ok(0), [])
    else
      match ends[j]
      case Crashed(e, effects) => Pass(Raised(e), effects)
      case Skipped(effects) => After(0, effects, Rows(ends, lo, hi, draws, k, j + 1))
      case Dispatched(effects) =>
        match JitterDelay(lo, hi, draws(k))
        case Raised(e) => Pass(Raised(e), effects)
        case Ok(ms) => After(1, effects + [Slept(ms)], Rows(ends, lo, hi, draws, k + 1, j + 1))
  }

  /** How many of the rows from `j` on reach the send call. */
  function Reachable(ends: seq<RowEnd>, j: nat): (n: nat)
    requires j <= |ends|
    ensures n <= |ends| - j
    decreases |ends| - j
  {
    if j == |ends| then 0
    else
      var here := if ends[j].Dispatched? then 1 else 0;
      here + Reachable(ends, j + 1)
  }

  /** Every pause directly follows a send call and every send call is
      directly followed by a pause. */
  predicate Paced(e: seq<Effect>) {
    && (forall i :: 0 <= i < |e| && e[i].Slept? ==> i > 0 && OfKind(e[i - 1], DispatchCall))
    && (forall i :: 0 <= i < |e| && OfKind(e[i], DispatchCall) ==> i + 1 < |e| && e[i + 1].Slept?)
  }

  /** Two paced runs joined where neither a pause nor a send call meets the seam. */
  lemma PacedAppend(a: seq<Effect>, b: seq<Effect>)
    requires Paced(a) && Paced(b)
    requires b != [] ==> b[0].Fetched?
    ensures Paced(a + b)
  {
    var e := a + b;
    forall i | 0 <= i < |e| && e[i].Slept?
      ensures i > 0 && OfKind(e[i - 1], DispatchCall)
    {
      if i > |a| {
        assert e[i] == b[i - |a|];
        assert e[i - 1] == b[i - 1 - |a|];
      }
    }
    forall i | 0 <= i < |e| && OfKind(e[i], DispatchCall)
      ensures i + 1 < |e| && e[i + 1].Slept?
    {
      if i < |a| {
        assert e[i] == a[i];
        if i + 1 < |a| {
          assert e[i + 1] == a[i + 1];
        }
      } else {
        assert e[i] == b[i - |a|];
        assert e[i + 1] == b[i + 1 - |a|];
      }
    }
  }

  /** What one row contributes to a run that goes on: paced and starting
      with the contact fetch. */
  lemma RowPaced(r: RowEnd, ms: int)
    requires Shaped(r)
    ensures r.Skipped? ==> Paced(r.effects) && r.effects[0].Fetched?
    ensures r.Dispatched? ==> Paced(r.effects + [Slept(ms)]) && r.effects[0].Fetched?
  {
    if r.Dispatched? {
      var e := r.effects + [Slept(ms)];
      assert |e| == 3 && e[0].Fetched? && OfKind(e[1], DispatchCall) && e[2].Slept?;
    }
  }

  /** A dispatched row makes one send call and, with its pause, one pause; a
      skipped row makes neither. */
  lemma RowCounts(r: RowEnd, ms: int)
    requires Shaped(r)
    ensures r.Skipped? ==> Count(r.effects, DispatchCall) == 0 && Count(r.effects, SleepCall) == 0
    ensures r.Dispatched? ==> Count(r.effects + [Slept(ms)], DispatchCall) == 1 && Count(r.effects + [Slept(ms)], SleepCall) == 1
  {
    if r.Dispatched? {
      var e := r.effects + [Slept(ms)];
      assert |e| == 3 && e[0].Fetched? && OfKind(e[1], DispatchCall) && e[2].Slept?;
      assert e[1..][1..][1..] == [];
    } else if r.Skipped? {
      assert r.effects[1..] == [];
    }
  }

  /** A run that returns with `n` sends and as many send calls and pauses. */
  predicate Tallied(p: Pass, n: nat) {
    p.result.Ok? ==> p.result.value == n && Count(p.effects, DispatchCall) == n && Count(p.effects, SleepCall) == n
  }

  /** A skipped row before a tallied run leaves the tally as it is. */
  lemma TallySkip(r: RowEnd, rest: Pass, n: nat)
    requires Shaped(r) && r.Skipped? && Tallied(rest, n)
    ensures Tallied(After(0, r.effects, rest), n)
  {
    RowCounts(r, 0);
    CountAppend(r.effects, rest.effects, DispatchCall);
    CountAppend(r.effects, rest.effects, SleepCall);
  }

  /** A dispatched row and its pause before a tallied run add one to the tally. */
  lemma TallySend(r: RowEnd, ms: int, rest: Pass, n: nat)
    requires Shaped(r) && r.Dispatched? && Tallied(rest, n)
    ensures Tallied(After(1, r.effects + [Slept(ms)], rest), n + 1)
  {
    RowCounts(r, ms);
    CountAppend(r.effects + [Slept(ms)], rest.effects, DispatchCall);
    CountAppend(r.effects + [Slept(ms)], rest.effects, SleepCall);
  }

  /** A run that returns its count made exactly that many send calls and
      pauses, one send call per reachable row. */
  lemma {:induction false} RowsCount(ends: seq<RowEnd>, lo: int, hi: int, draws: nat -> nat, k: nat, j: nat)
    requires j <= |ends|
    requires forall i :: 0 <= i < |ends| ==> Shaped(ends[i])
    ensures Tallied(Rows(ends, lo, hi, draws, k, j), Reachable(ends, j))
    decreases |ends| - j
  {
    if j < |ends| {
      var r := ends[j];
      if r.Skipped? {
        RowsCount(ends, lo, hi, draws, k, j + 1);
        TallySkip(r, Rows(ends, lo, hi, draws, k, j + 1), Reachable(ends, j + 1));
        assert Reachable(ends, j) == Reachable(ends, j + 1);
      } else if r.Dispatched? && JitterDelay(lo, hi, draws(k)).Ok? {
        RowsCount(ends, lo, hi, draws, k + 1, j + 1);
        TallySend(r, JitterDelay(lo, hi, draws(k)).value, Rows(ends, lo, hi, draws, k + 1, j + 1), Reachable(ends, j + 1));
        assert Reachable(ends, j) == 1 + Reachable(ends, j + 1);
      }
    }
  }

  /** In a run that returns, each send call is directly followed by its
      pause and every pause follows a send call. */
  lemma {:induction false} RowsPaced(ends: seq<RowEnd>, lo: int, hi: int, draws: nat -> nat, k: nat, j: nat)
    requires j <= |ends|
    requires forall i :: 0 <= i < |ends| ==> Shaped(ends[i])
    ensures var p := Rows(ends, lo, hi, draws, k, j);
      p.result.Ok? ==> Paced(p.effects) && (p.effects != [] ==> p.effects[0].Fetched?)
    decreases |ends| - j
  {
    var p := Rows(ends, lo, hi, draws, k, j);
    if j < |ends| && p.result.Ok? {
      var r := ends[j];
      if r.Skipped? {
        var rest := Rows(ends, lo, hi, draws, k, j + 1);
        RowsPaced(ends, lo, hi, draws, k, j + 1);
        RowPaced(r, 0);
        assert p == After(0, r.effects, rest);
        PacedAppend(r.effects, rest.effects);
      } else if r.Dispatched? {
        var ms := JitterDelay(lo, hi, draws(k)).value;
        var rest := Rows(ends, lo, hi, draws, k + 1, j + 1);
        RowsPaced(ends, lo, hi, draws, k + 1, j + 1);
        RowPaced(r, ms);
        var e := r.effects + [Slept(ms)];
        assert p == After(1, e, rest);
        PacedAppend(e, rest.effects);
      }
    } else if j == |ends| {
      assert p.effects == [];
    }
  }

  /** One row of the loop, up to the pause. */
  method HandleRow(channel: Channel, w: World, campaign: Record, row: Value, actuallySend: bool) returns (r: RowEnd)
    ensures r == Row(channel, w, campaign, row, actuallySend)
  {
    var id := RowContact(row);
    if id.Raised? {
      return Crashed(id.error, []);
    }
    var fetched := [Fetched(ContactUrl(w, id.value))];
    var contact := Contact(w, id.value);
    if contact.Raised? {
      return Crashed(contact.error, fetched);
    }
    var to := Address(channel, contact.value);
    if to.Raised? {
      return Crashed(to.error, fetched);
    }
    if to.value == [] {
      return Skipped(fetched);
    }
    return Dispatched(fetched + [SendCall(channel, campaign, contact.value, to.value, actuallySend)]);
  }

  /** Row `j` of the loop, as the precomputed ends say it ends. */
  method HandleAt(channel: Channel, w: World, campaign: Record, rows: seq<Value>, actuallySend: bool, j: nat)
    returns (r: RowEnd)
    requires j < |rows|
    ensures r == Ends(channel, w, campaign, rows, actuallySend)[j]
  {
    r := HandleRow(channel, w, campaign, rows[j], actuallySend);
    EndAt(channel, w, campaign, rows, actuallySend, j);
  }

  /** A loop turn over a skipped row. */
  lemma TurnSkip(ends: seq<RowEnd>, lo: int, hi: int, draws: nat -> nat, sent: nat, j: nat, effects: seq<Effect>)
    requires j < |ends| && ends[j].Skipped?
    ensures After(sent, effects, Rows(ends, lo, hi, draws, sent, j))
      == After(sent, effects + ends[j].effects, Rows(ends, lo, hi, draws, sent, j + 1))
  {
    AfterTwice(sent, effects, 0, ends[j].effects, Rows(ends, lo, hi, draws, sent, j + 1));
  }

  /** A loop turn over a dispatched row whose pause is drawn. */
  lemma TurnSend(ends: seq<RowEnd>, lo: int, hi: int, draws: nat -> nat, sent: nat, j: nat, effects: seq<Effect>)
    requires j < |ends| && ends[j].Dispatched? && JitterDelay(lo, hi, draws(sent)).Ok?
    ensures After(sent, effects, Rows(ends, lo, hi, draws, sent, j))
      == After(sent + 1, effects + (ends[j].effects + [Slept(JitterDelay(lo, hi, draws(sent)).value)]),
               Rows(ends, lo, hi, draws, sent + 1, j + 1))
  {
    var step := ends[j].effects + [Slept(JitterDelay(lo, hi, draws(sent)).value)];
    AfterTwice(sent, effects, 1, step, Rows(ends, lo, hi, draws, sent + 1, j + 1));
  }

  /** A loop turn that raises: the row's own exception or the pause's. */
  lemma TurnStop(ends: seq<RowEnd>, lo: int, hi: int, draws: nat -> nat, sent: nat, j: nat, effects: seq<Effect>, e: Error)
    requires j < |ends|
    requires ends[j] == Crashed(e, ends[j].effects)
      || (ends[j].Dispatched? && JitterDelay(lo, hi, draws(sent)) == Raised(e))
    ensures After(sent, effects, Rows(ends, lo, hi, draws, sent, j)) == Pass(Raised(e), effects + ends[j].effects)
  {
  }

  /** Past the last row the loop returns with no further sends or calls. */
  lemma RowsDone(ends: seq<RowEnd>, lo: int, hi: int, draws: nat -> nat, k: nat, j: nat)
    requires j == |ends|
    ensures Rows(ends, lo, hi, draws, k, j) == Pass(Ok(0), [])
  {
  }

  /** One turn of the runners' loop: row `j` after `sent` sends and the
      calls `effects`. The turn stops the runner with `r` when the row or its
      pause raises; otherwise it hands on the new count and calls. */
  method Turn(channel: Channel, w: World, lo: int, hi: int, campaign: Record, rows: seq<Value>,
              actuallySend: bool, draws: nat -> nat, sent: nat, j: nat, effects: seq<Effect>)
    returns (stop: bool, r: Result<int>, sent': nat, effects': seq<Effect>)
    requires j < |rows|
    ensures var ends := Ends(channel, w, campaign, rows, actuallySend);
      After(sent, effects, Rows(ends, lo, hi, draws, sent, j))
        == if stop then Pass(r, effects') else After(sent', effects', Rows(ends, lo, hi, draws, sent', j + 1))
  {
    ghost var ends := Ends(channel, w, campaign, rows, actuallySend);
    var end := HandleAt(channel, w, campaign, rows, actuallySend, j);
    if end.Crashed? {
      TurnStop(ends, lo, hi, draws, sent, j, effects, end.error);
      return true, Raised(end.error), sent, effects + end.effects;
    }
    if end.Skipped? {
      TurnSkip(ends, lo, hi, draws, sent, j, effects);
      return false, Ok(0), sent, effects + end.effects;
    }
    var pause := JitterDelay(lo, hi, draws(sent));
    if pause.Raised? {
      TurnStop(ends, lo, hi, draws, sent, j, effects, pause.error);
      return true, Raised(pause.error), sent, effects + end.effects;
    }
    TurnSend(ends, lo, hi, draws, sent, j, effects);
    return false, Ok(0), sent + 1, effects + (end.effects + [Slept(pause.value)]);
  }

  /** The runners' loop over the fetched rows. */
  method RunRows(channel: Channel, w: World, lo: int, hi: int, campaign: Record, rows: seq<Value>,
                 actuallySend: bool, draws: nat -> nat)
    returns (r: Result<int>, effects: seq<Effect>)
    ensures Pass(r, effects) == Rows(Ends(channel, w, campaign, rows, actuallySend), lo, hi, draws, 0, 0)
  {
    ghost var goal := Rows(Ends(channel, w, campaign, rows, actuallySend), lo, hi, draws, 0, 0);
    var sent: nat := 0;
    effects := [];
    var j: nat := 0;
    while j < |rows|
      invariant j <= |rows|
      invariant goal == After(sent, effects, Rows(Ends(channel, w, campaign, rows, actuallySend), lo, hi, draws, sent, j))
      decreases |rows| - j
    {
      var stop, result;
      stop, result, sent, effects := Turn(channel, w, lo, hi, campaign, rows, actuallySend, draws, sent, j, effects);
      if stop {
        return result, effects;
      }
      j := j + 1;
    }
    RowsDone(Ends(channel, w, campaign, rows, actuallySend), lo, hi, draws, sent, j);
    AfterNothing(sent, effects);
    return Ok(sent), effects;
  }

  /** The pause range the configuration gives by default. */
  const DefaultMinDelayMs: int := 1500
  const DefaultMaxDelayMs: int := 3500

  /** With the default range every pause is between 1.5 and 3.5 seconds. */
  lemma DefaultPausesInRange(draw: nat)
    ensures JitterDelay(DefaultMinDelayMs, DefaultMaxDelayMs, draw).Ok?
    ensures 1500 <= JitterDelay(DefaultMinDelayMs, DefaultMaxDelayMs, draw).value <= 3500
  {
  }

  // ---------------------------------------------------------------- the runners

  /** The specification of a runner: list the campaign's rows for the
      configured code of `channel`, then run the loop over them. */
  function Runner(channel: Channel, w: World, lo: int, hi: int, campaign: Record, actuallySend: bool,
                  draws: nat -> nat, fuel: nat): Pass
    requires !Crawled(w, Str(ContactMethodsUrl(w, Get(campaign, "id"), Int(ConfigCode(channel)))), fuel).Exhausted?
  {
    var listed := CrawlResult(Crawled(w, Str(ContactMethodsUrl(w, Get(campaign, "id"), Int(ConfigCode(channel)))), fuel));
    match listed
    case Raised(e) => Pass(Raised(e), [])
    case Ok(rows) => Rows(Ends(channel, w, campaign, rows, actuallySend), lo, hi, draws, 0, 0)
  }

  /** `run_email(campaign)`: the number of contacts handed to the e-mail send call. */
  method RunEmail(w: World, lo: int, hi: int, campaign: Record, draws: nat -> nat, ghost fuel: nat)
    returns (r: Result<int>, effects: seq<Effect>)
    requires !Crawled(w, Str(ContactMethodsUrl(w, Get(campaign, "id"), Int(ConfigCode(Email)))), fuel).Exhausted?
    ensures Pass(r, effects) == Runner(Email, w, lo, hi, campaign, false, draws, fuel)
  {
    var rows := GetCampaignContacts(w, Get(campaign, "id"), Int(ConfigCode(Email)), fuel);
    if rows.Raised? {
      return Raised(rows.error), [];
    }
    r, effects := RunRows(Email, w, lo, hi, campaign, rows.value, false, draws);
  }

  /** `run_linkedin(campaign, actually_send)`: the number of contacts handed
      to the LinkedIn send call, each with the caller's flag. */
  method RunLinkedIn(w: World, lo: int, hi: int, campaign: Record, actuallySend: bool, draws: nat -> nat, ghost fuel: nat)
    returns (r: Result<int>, effects: seq<Effect>)
    requires !Crawled(w, Str(ContactMethodsUrl(w, Get(campaign, "id"), Int(ConfigCode(LinkedIn)))), fuel).Exhausted?
    ensures Pass(r, effects) == Runner(LinkedIn, w, lo, hi, campaign, actuallySend, draws, fuel)
  {
    var rows := GetCampaignContacts(w, Get(campaign, "id"), Int(ConfigCode(LinkedIn)), fuel);
    if rows.Raised? {
      return Raised(rows.error), [];
    }
    r, effects := RunRows(LinkedIn, w, lo, hi, campaign, rows.value, actuallySend, draws);
  }

  /** No call is an e-mail send and every LinkedIn send carries `flag`. */
  predicate Flagged(e: seq<Effect>, flag: bool) {
    forall i :: 0 <= i < |e| ==> !e[i].DispatchedEmail? && (e[i].DispatchedLinkedIn? ==> e[i].actuallySend == flag)
  }

  lemma FlaggedAppend(a: seq<Effect>, b: seq<Effect>, flag: bool)
    requires Flagged(a, flag) && Flagged(b, flag)
    ensures Flagged(a + b, flag)
  {
    forall i | 0 <= i < |a + b|
      ensures !(a + b)[i].DispatchedEmail? && ((a + b)[i].DispatchedLinkedIn? ==> (a + b)[i].actuallySend == flag)
    {
      if i >= |a| {
        assert (a + b)[i] == b[i - |a|];
      }
    }
  }

  /** The calls of a row that ends as `r` are flagged with `flag`. */
  predicate RowFlagged(r: RowEnd, flag: bool) {
    Flagged(r.effects, flag)
  }

  /** Every LinkedIn send call of a run carries the flag its rows carry. */
  lemma {:induction false} FlagPassed(ends: seq<RowEnd>, lo: int, hi: int, draws: nat -> nat, k: nat, j: nat, flag: bool)
    requires j <= |ends|
    requires forall i :: 0 <= i < |ends| ==> RowFlagged(ends[i], flag)
    ensures Flagged(Rows(ends, lo, hi, draws, k, j).effects, flag)
    decreases |ends| - j
  {
    if j < |ends| {
      var r := ends[j];
      assert RowFlagged(r, flag);
      if r.Skipped? {
        FlagPassed(ends, lo, hi, draws, k, j + 1, flag);
        FlaggedAppend(r.effects, Rows(ends, lo, hi, draws, k, j + 1).effects, flag);
      } else if r.Dispatched? && JitterDelay(lo, hi, draws(k)).Ok? {
        FlagPassed(ends, lo, hi, draws, k + 1, j + 1, flag);
        var pause := [Slept(JitterDelay(lo, hi, draws(k)).value)];
        FlaggedAppend(r.effects, pause, flag);
        FlaggedAppend(r.effects + pause, Rows(ends, lo, hi, draws, k + 1, j + 1).effects, flag);
      }
    }
  }

  /** In a LinkedIn run every send call carries the caller's flag and none is an e-mail. */
  lemma LinkedInFlagPassed(w: World, lo: int, hi: int, campaign: Record, rows: seq<Value>, actuallySend: bool, draws: nat -> nat)
    ensures Flagged(Rows(Ends(LinkedIn, w, campaign, rows, actuallySend), lo, hi, draws, 0, 0).effects, actuallySend)
  {
    var ends := Ends(LinkedIn, w, campaign, rows, actuallySend);
    forall i | 0 <= i < |ends|
      ensures RowFlagged(ends[i], actuallySend)
    {
      EndAt(LinkedIn, w, campaign, rows, actuallySend, i);
      LinkedInRowFlagged(w, campaign, rows[i], actuallySend);
    }
    FlagPassed(ends, lo, hi, draws, 0, 0, actuallySend);
  }

  /** A LinkedIn row makes no e-mail send and passes the caller's flag on. */
  lemma LinkedInRowFlagged(w: World, campaign: Record, row: Value, actuallySend: bool)
    ensures RowFlagged(Row(LinkedIn, w, campaign, row, actuallySend), actuallySend)
  {
    RowCrashed(LinkedIn, w, campaign, row, actuallySend);
    EndFlagged(Row(LinkedIn, w, campaign, row, actuallySend), actuallySend);
  }

  /** A row that raises has made at most the contact fetch. */
  lemma RowCrashed(channel: Channel, w: World, campaign: Record, row: Value, actuallySend: bool)
    ensures var r := Row(channel, w, campaign, row, actuallySend);
      r.Crashed? ==> |r.effects| <= 1 && (r.effects != [] ==> r.effects[0].Fetched?)
  {
  }

  /** A row whose calls are at most the contact fetch and a LinkedIn send
      call with the flag is flagged. */
  lemma EndFlagged(r: RowEnd, flag: bool)
    requires |r.effects| <= 2 && (r.effects != [] ==> r.effects[0].Fetched?)
    requires |r.effects| == 2 ==> r.effects[1].DispatchedLinkedIn? && r.effects[1].actuallySend == flag
    ensures RowFlagged(r, flag)
  {
  }

  /** A runner that returns made one send call and one pause per contact with
      an address, and paused right after each send. */
  lemma RunnerCount(channel: Channel, w: World, lo: int, hi: int, campaign: Record, rows: seq<Value>, actuallySend: bool, draws: nat -> nat)
    ensures var ends := Ends(channel, w, campaign, rows, actuallySend);
      var p := Rows(ends, lo, hi, draws, 0, 0);
      p.result.Ok? ==>
        && p.result.value == Reachable(ends, 0)
        && p.result.value == Count(p.effects, DispatchCall)
        && p.result.value == Count(p.effects, SleepCall)
        && Paced(p.effects)
  {
    var ends := Ends(channel, w, campaign, rows, actuallySend);
    EndsShaped(channel, w, campaign, rows, actuallySend);
    RowsCount(ends, lo, hi, draws, 0, 0);
    RowsPaced(ends, lo, hi, draws, 0, 0);
  }
}
