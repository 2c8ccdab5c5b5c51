/**
 From the request body to the numbers that are looked up on WhatsApp: the `formatJid` middleware,
 and behind it `CheckUser` (pkg/user/service/user_service.go) and the existence check of the send
 services (pkg/sendMessage/service/send_service.go). The middleware takes a missing `formatJid` for
 true; both services look up without formatting unless told otherwise.
 */
module NumberLookup {
  import opened Wrappers
  import opened Text
  import opened JsonValue
  import opened Jid
  import opened NumberCheck
  import opened JidValidation

  /** The numbers of a request whose field is text or a list of texts. */
  function NumbersOf(v: Json): seq<string> {
    match v
    case Str(s) => [s]
    case Arr(items) => seq(|items|, i requires 0 <= i < |items| => if items[i].Str? then items[i].s else "")
    case _ => []
  }

  /** The `formatJid` pointer that a handler decodes from the body. */
  function FlagOf(body: Body): Option<bool> {
    if "formatJid" in body && body["formatJid"].Bool? then Some(body["formatJid"].b) else None
  }

  /** The middleware formats unless told not to. */
  predicate WantsFormat(body: Body) {
    !("formatJid" in body && body["formatJid"] == Bool(false))
  }

  function CheckFor(body: Body): Check {
    if WantsFormat(body) then NumberNeeded else TextNeeded
  }

  /** What the middleware lets through, and what it forwards. */
  ghost predicate Passes(body: Body, forwarded: Body) {
    && "number" in body
    && exists modified :: Validated(body, CheckFor(body), Forward(modified), forwarded)
  }

  /** The texts looked up for a body when the service passes `&formatJid`. */
  function Lookup(body: Body, formatJid: bool): seq<string>
    requires "number" in body
  {
    PreparedAll(NumbersOf(body["number"]), Some(formatJid))
  }

  lemma NumbersNormalized(v: Json)
    requires Accepted(v, NumberNeeded)
    ensures var before, after := NumbersOf(v), NumbersOf(Normalized(v, NumberNeeded));
      |after| == |before| && forall i :: 0 <= i < |before| ==> CreateJID(before[i]) == Success(after[i])
  {
  }

  /** What the middleware does to the numbers: each becomes its JID, or, without formatting, nothing. */
  lemma {:induction false} ForwardedNumbers(body: Body, forwarded: Body)
    requires Passes(body, forwarded)
    ensures "number" in forwarded && FlagOf(forwarded) == FlagOf(body)
    ensures var before, after := NumbersOf(body["number"]), NumbersOf(forwarded["number"]);
      if "formatJid" in body && body["formatJid"] == Bool(false) then after == before
      else |after| == |before| && forall i :: 0 <= i < |before| ==> CreateJID(before[i]) == Success(after[i])
  {
    var modified :| Validated(body, CheckFor(body), Forward(modified), forwarded);
    if WantsFormat(body) {
      NumbersNormalized(body["number"]);
    } else {
      RawForwardsUnchanged(body, Forward(modified), forwarded);
    }
  }

  /** Normalising a list of accepted numbers leaves the list alone iff they all are JIDs already. */
  lemma {:induction false} UnchangedIffJids(before: seq<string>, after: seq<string>)
    requires |after| == |before| && forall i :: 0 <= i < |before| ==> CreateJID(before[i]) == Success(after[i])
    ensures after == before <==> forall s :: s in before ==> IsJid(s)
  {
    forall i | 0 <= i < |before|
      ensures after[i] == before[i] <==> IsJid(before[i])
    {
      CreateJIDShape(before[i]);
    }
    if after == before {
      forall s | s in before
        ensures IsJid(s)
      {
        var i :| 0 <= i < |before| && before[i] == s;
        assert after[i] == before[i];
      }
    }
  }

  /**
   Exactly when the middleware does not affect a lookup: if it was told not to format, or the lookup
   formats, or every number is a JID already.
   */
  lemma {:induction false} LookupIsUnaffectedIff(body: Body, forwarded: Body, formatJid: bool)
    requires Passes(body, forwarded)
    ensures "number" in forwarded
    ensures Lookup(forwarded, formatJid) == Lookup(body, formatJid)
      <==>
        || ("formatJid" in body && body["formatJid"] == Bool(false))
        || formatJid
        || forall s :: s in NumbersOf(body["number"]) ==> IsJid(s)
  {
    ForwardedNumbers(body, forwarded);
    if WantsFormat(body) {
      var before, after := NumbersOf(body["number"]), NumbersOf(forwarded["number"]);
      PreparedLists(before, Some(formatJid), None, after);
      UnchangedIffJids(before, after);
    }
  }

  // ----- CheckUser -----

  /** `CheckUser` takes a missing flag for false. */
  predicate CheckUserFlag(body: Body) {
    FlagOf(body) == Some(true)
  }

  /** The first lookup of `CheckUser`, with the flag it reads from the body it gets. */
  function FirstCheck(body: Body): seq<string>
    requires "number" in body
  {
    Lookup(body, CheckUserFlag(body))
  }

  /** The second, made only if the first was formatted and someone was not found: without formatting. */
  function SecondCheck(body: Body): Option<seq<string>>
    requires "number" in body
  {
    if CheckUserFlag(body) then Some(Lookup(body, false)) else None
  }

  /** The numbers of a body that the middleware accepts. */
  lemma NumbersMeaning(v: Json)
    ensures v.Str? ==> NumbersOf(v) == [v.s]
    ensures v.Arr? ==> |NumbersOf(v)| == |v.items|
    ensures v.Arr? ==> forall i :: 0 <= i < |v.items| && v.items[i].Str? ==> NumbersOf(v)[i] == v.items[i].s
  {
  }

  /**
   The texts of both lookups. With the flag true the first is formatted and the second is the numbers
   as they came; with false or no flag the numbers as they came are the only lookup.
   */
  lemma {:induction false} CheckUserTexts(body: Body)
    requires "number" in body
    ensures var numbers := NumbersOf(body["number"]);
      if "formatJid" in body && body["formatJid"] == Bool(true) then
        && |FirstCheck(body)| == |numbers|
        && (forall i :: 0 <= i < |numbers| ==> IsLookedUpAs(numbers[i], FirstCheck(body)[i]))
        && SecondCheck(body) == Some(numbers)
      else FirstCheck(body) == numbers && SecondCheck(body) == None
  {
    var numbers := NumbersOf(body["number"]);
    forall i | 0 <= i < |numbers| {
      PreparedMeaning(numbers[i]);
    }
  }

  /**
   `CheckUser` behind the middleware. Its first lookup is that of the original body iff `formatJid`
   is a boolean, or the numbers are JIDs already: a body without the flag is normalised by the
   middleware and then looked up as it is. The second, meant to try the text as received, does so
   only for numbers that are JIDs already.
   */
  lemma {:induction false} CheckUserLookups(body: Body, forwarded: Body)
    requires Passes(body, forwarded)
    ensures "number" in forwarded
    ensures FirstCheck(forwarded) == FirstCheck(body)
      <==> ("formatJid" in body && body["formatJid"].Bool?) || forall s :: s in NumbersOf(body["number"]) ==> IsJid(s)
    ensures SecondCheck(forwarded) == SecondCheck(body)
      <==>
        || ("formatJid" in body ==> body["formatJid"] != Bool(true))
        || forall s :: s in NumbersOf(body["number"]) ==> IsJid(s)
  {
    ForwardedNumbers(body, forwarded);
    LookupIsUnaffectedIff(body, forwarded, CheckUserFlag(body));
    LookupIsUnaffectedIff(body, forwarded, false);
  }

  /** A default request: accepted, and its JID is looked up instead of the number that was sent. */
  lemma {:induction false} DefaultCheckLooksUpTheJid()
    ensures var body: Body := map["number" := Arr([Str("15550001")])];
      var forwarded: Body := map["number" := Arr([Str(PhoneJID("15550001"))])];
      && Passes(body, forwarded)
      && FirstCheck(body) == ["15550001"]
      && FirstCheck(forwarded) == [PhoneJID("15550001")] != FirstCheck(body)
  {
    var number := "15550001";
    DigitsOnly(number);
    DefaultCheck(number, PhoneJID(number));
  }

  lemma {:induction false} DefaultCheck(number: string, j: string)
    requires number != "" && CreateJID(number) == Success(j) && j != number
    ensures var body: Body := map["number" := Arr([Str(number)])];
      var forwarded: Body := map["number" := Arr([Str(j)])];
      Passes(body, forwarded) && FirstCheck(body) == [number] && FirstCheck(forwarded) == [j] != FirstCheck(body)
  {
    var body: Body := map["number" := Arr([Str(number)])];
    var v := body["number"];
    assert Item(NumberNeeded, v.items[0]) == Success(Str(j));
    assert Accepted(v, NumberNeeded);
    assert Mapped(v.items, NumberNeeded) == [Str(j)];
    assert Validated(body, NumberNeeded, Forward(true), body["number" := Arr([Str(j)])]);
    assert [number][0] != [j][0];
  }

  // ----- the existence check before sending -----

  /** Groups, broadcasts, newsletters and LIDs are not checked. */
  predicate SkipsCheck(phone: string) {
    Contains(phone, GROUP) || Contains(phone, "@broadcast") || Contains(phone, "@newsletter") || Contains(phone, "@lid")
  }

  /** The texts looked up before a message is sent, in order; the second only if the first is not found. */
  function SendLookups(phone: string): seq<string> {
    if SkipsCheck(phone) then []
    else PreparedAll([phone], Some(false)) + PreparedAll([phone], Some(true))
  }

  /** What is looked up before sending. */
  lemma {:induction false} SendTexts(phone: string)
    ensures if Contains(phone, "@g.us") || Contains(phone, "@broadcast")
               || Contains(phone, "@newsletter") || Contains(phone, "@lid")
      then SendLookups(phone) == []
      else |SendLookups(phone)| == 2 && SendLookups(phone)[0] == phone && IsLookedUpAs(phone, SendLookups(phone)[1])
  {
    PreparedMeaning(phone);
  }

  lemma {:induction false} NoOther(d: string, sub: string)
    requires AllDigits(d) && |sub| > 1 && sub[0] == '@' && sub[1] != 's'
    ensures !Contains(PhoneJID(d), sub)
  {
    var j := PhoneJID(d);
    forall i | 0 <= i <= |j| - |sub|
      ensures !OccursAt(j, sub, i)
    {
      assert j[i..i + |sub|][0] == j[i] && j[i..i + |sub|][1] == j[i + 1];
    }
  }

  lemma {:induction false} PhoneIsChecked(d: string)
    requires AllDigits(d)
    ensures !SkipsCheck(PhoneJID(d))
  {
    NoOther(d, GROUP);
    NoOther(d, "@broadcast");
    NoOther(d, "@newsletter");
    NoOther(d, "@lid");
  }

  /**
   The check before sending, behind a middleware that formats. For a number that becomes a phone JID,
   the first lookup is made with the JID instead of the text, and the second is the same; a number
   that becomes a group JID is not checked at all. So the check is unaffected iff the text was a JID.
   */
  lemma {:induction false} SendLookupsMeaning(x: string, j: string)
    requires CreateJID(x) == Success(j)
    ensures SendLookups(j) == SendLookups(x) <==> IsJid(x)
    ensures !IsJid(x) ==> SendLookups(x) == [x, Prepared(x)]
    ensures !IsJid(x) ==> SendLookups(j) == if IsPhoneJID(j) then [j, Prepared(x)] else []
  {
    CreateJIDShape(x);
    LayersAgree(x);
    if !IsJid(x) {
      assert !SkipsCheck(x);
      assert SendLookups(x) == [x, Prepared(x)];
      if IsPhoneJID(j) {
        PhoneIsChecked(j[1..|j| - |USER|]);
        assert SendLookups(j) == [j, Prepared(x)];
        assert [j, Prepared(x)][0] != [x, Prepared(x)][0];
      } else {
        ContainsSuffix(j[..|j| - |GROUP|], GROUP);
      }
    }
  }

  /** The same for a request: unaffected iff the middleware was told not to format, or got a JID. */
  lemma {:induction false} SendCheckIsUnaffectedIff(body: Body, forwarded: Body)
    requires Passes(body, forwarded) && body["number"].Str?
    ensures "number" in forwarded && forwarded["number"].Str?
    ensures SendLookups(forwarded["number"].s) == SendLookups(body["number"].s)
      <==> ("formatJid" in body && body["formatJid"] == Bool(false)) || IsJid(body["number"].s)
  {
    ForwardedNumbers(body, forwarded);
    if WantsFormat(body) {
      SendLookupsMeaning(body["number"].s, forwarded["number"].s);
    } else {
      var modified :| Validated(body, TextNeeded, Forward(modified), forwarded);
      RawForwardsUnchanged(body, Forward(modified), forwarded);
    }
  }
}
