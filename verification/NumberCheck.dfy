/** `PrepareNumbersForWhatsAppCheck` (pkg/utils/utils.go) and its agreement with `CreateJID`. */
module NumberCheck {
  import opened Wrappers
  import opened Text
  import opened Jid

  /** What is looked up for one number when formatting is on. */
  function Prepared(number: string): string {
    var raw := if Contains(number, USER) then UpTo(number, '@') else number;
    match CreateJID(raw)
    case Failure(_) => number
    case Success(j) => if Contains(j, USER) then UpTo(j, '@') else j
  }

  /**
   What it is for one number to be looked up as `y`, said of `CreateJID` alone. The text before the
   '@' of a user JID is normalised, other text as it is. If that fails the number is looked up as it
   came; if it gives a user JID, `y` is that JID without its suffix; otherwise `y` is the JID.
   */
  ghost predicate IsLookedUpAs(x: string, y: string) {
    var raw := if Contains(x, "@s.whatsapp.net") then UpTo(x, '@') else x;
    match CreateJID(raw)
    case Failure(_) => y == x
    case Success(j) => if Contains(j, "@s.whatsapp.net") then j == y + "@s.whatsapp.net" else y == j
  }

  /** `formatJid` is a nil-able pointer in the source; nil means true. */
  predicate ShouldFormat(formatJid: Option<bool>) {
    formatJid == None || formatJid.value
  }

  function PreparedAll(numbers: seq<string>, formatJid: Option<bool>): (r: seq<string>) {
    if ShouldFormat(formatJid)
    then seq(|numbers|, i requires 0 <= i < |numbers| => Prepared(numbers[i]))
    else numbers
  }

  method PrepareNumbersForWhatsAppCheck(numbers: seq<string>, formatJid: Option<bool>)
      returns (phoneNumbers: seq<string>)
    ensures phoneNumbers == PreparedAll(numbers, formatJid)
    ensures formatJid == Some(false) ==> phoneNumbers == numbers
    ensures formatJid != Some(false) ==>
      |phoneNumbers| == |numbers| && forall i :: 0 <= i < |numbers| ==> IsLookedUpAs(numbers[i], phoneNumbers[i])
  {
    phoneNumbers := [];
    if ShouldFormat(formatJid) {
      for i := 0 to |numbers|
        invariant |phoneNumbers| == i
        invariant forall k :: 0 <= k < i ==> phoneNumbers[k] == Prepared(numbers[k])
      {
        var number := numbers[i];
        var rawNumber := number;
        if Contains(number, USER) {
          rawNumber := UpTo(number, '@');
        }
        var normalized := CreateJID(rawNumber);
        if normalized.Failure? {
          phoneNumbers := phoneNumbers + [number];
          continue;
        }
        var normalizedJID := normalized.value;
        if Contains(normalizedJID, USER) {
          phoneNumbers := phoneNumbers + [UpTo(normalizedJID, '@')];
        } else {
          phoneNumbers := phoneNumbers + [normalizedJID];
        }
      }
      forall i | 0 <= i < |numbers|
        ensures IsLookedUpAs(numbers[i], phoneNumbers[i])
      {
        PreparedMeaning(numbers[i]);
      }
    } else {
      phoneNumbers := phoneNumbers + numbers;
    }
  }

  method PrepareNumberForWhatsAppCheck(phone: string, formatJid: bool) returns (r: string)
    ensures r == if formatJid then Prepared(phone) else phone
  {
    var numbers := PrepareNumbersForWhatsAppCheck([phone], Some(formatJid));
    r := numbers[0];
  }

  lemma {:induction false} PreparedPhone(d: string)
    requires IsPhoneNumber(d)
    ensures Prepared(PhoneJID(d)) == "+" + d == Prepared("+" + d)
  {
    PhoneShape(d);
    PhonePart(d);
    var x := "+" + d;
    ContainsNeedsHead(x, USER);
  }

  lemma {:induction false} PreparedGroup(g: string)
    requires forall i :: 0 <= i < |g| ==> IsGroupChar(g[i])
    ensures Prepared(g + GROUP) == g + GROUP
  {
    GroupShape(g);
  }

  /** What preparing yields for raw text, that is, text without the user suffix. */
  lemma {:induction false} PreparedRaw(raw: string, j: string)
    requires !IsJid(raw) && CreateJID(raw) == Success(j)
    ensures Prepared(j) == (if Contains(j, USER) then UpTo(j, '@') else j)
    ensures Prepared(Prepared(j)) == Prepared(j)
  {
    CreateJIDShape(raw);
    if IsPhoneJID(j) {
      var d := j[1..|j| - |USER|];
      PhoneShape(d);
      PreparedPhone(d);
    } else {
      var g := j[..|j| - |GROUP|];
      GroupShape(g);
      PreparedGroup(g);
    }
  }

  /** The preparation of one number means what `IsLookedUpAs` says. */
  lemma {:induction false} PreparedMeaning(x: string)
    ensures IsLookedUpAs(x, Prepared(x))
    ensures var raw := if Contains(x, "@s.whatsapp.net") then UpTo(x, '@') else x;
      CreateJID(raw).Failure? ==> Prepared(x) == x
  {
    var raw := if Contains(x, USER) then UpTo(x, '@') else x;
    if CreateJID(raw).Success? {
      if Contains(x, USER) {
        PlainIsNoJid(raw);
      }
      if !IsJid(raw) && Contains(CreateJID(raw).value, USER) {
        UserPart(raw);
      }
    }
  }

  lemma {:induction false} UserPart(raw: string)
    requires !IsJid(raw) && CreateJID(raw).Success? && Contains(CreateJID(raw).value, USER)
    ensures CreateJID(raw).value == UpTo(CreateJID(raw).value, '@') + "@s.whatsapp.net"
  {
    CreateJIDShape(raw);
    var j := CreateJID(raw).value;
    if IsPhoneJID(j) {
      PhoneShape(j[1..|j| - |USER|]);
    } else {
      GroupShape(j[..|j| - |GROUP|]);
    }
  }

  /**
   The layers agree: preparing a number that was already normalised, by the middleware for
   instance, looks up exactly what preparing the original looks up.
   */
  lemma {:induction false} LayersAgree(x: string)
    requires CreateJID(x).Success?
    ensures Prepared(CreateJID(x).value) == Prepared(x)
  {
    if !IsJid(x) {
      PreparedRaw(x, CreateJID(x).value);
    }
  }

  /** Preparing is idempotent on every string, also where `CreateJID` refuses it. */
  lemma {:induction false} PreparedTwice(x: string)
    ensures Prepared(Prepared(x)) == Prepared(x)
  {
    var raw := if Contains(x, USER) then UpTo(x, '@') else x;
    var r := CreateJID(raw);
    if r.Success? {
      if Contains(x, USER) {
        PlainIsNoJid(raw);
      }
      if !IsJid(raw) {
        PreparedRaw(raw, r.value);
      }
    }
  }

  /**
   The result for a whole list: it has one entry per number, in the same place, which depends on
   that number alone; preparing again with any flag, or preparing a list that went through
   `CreateJID` first, gives the same list.
   */
  lemma {:induction false} PreparedLists(numbers: seq<string>, formatJid: Option<bool>, again: Option<bool>,
                                         normalized: seq<string>)
    requires |normalized| == |numbers|
    requires forall i :: 0 <= i < |numbers| ==>
      normalized[i] == numbers[i] || CreateJID(numbers[i]) == Success(normalized[i])
    ensures var r := PreparedAll(numbers, formatJid);
      && |r| == |numbers|
      && (forall i :: 0 <= i < |r| ==> PreparedAll([numbers[i]], formatJid) == [r[i]])
      && (ShouldFormat(formatJid) ==> PreparedAll(r, again) == r)
      && (ShouldFormat(formatJid) ==> PreparedAll(normalized, formatJid) == r)
  {
    var r := PreparedAll(numbers, formatJid);
    forall i | 0 <= i < |r|
      ensures Prepared(Prepared(numbers[i])) == Prepared(numbers[i]) == Prepared(normalized[i])
    {
      PreparedTwice(numbers[i]);
      if normalized[i] != numbers[i] {
        LayersAgree(numbers[i]);
      }
    }
  }

  /**
   With formatting off the text is looked up as it is, so normalising first does change what is
   looked up, and it does so exactly when `CreateJID` rewrites the text.
   */
  lemma {:induction false} RawLookupSeesNormalization(x: string)
    requires CreateJID(x).Success?
    ensures PreparedAll([CreateJID(x).value], Some(false)) == PreparedAll([x], Some(false)) <==> IsJid(x)
  {
    CreateJIDShape(x);
    assert PreparedAll([x], Some(false))[0] == x;
  }
}
