/** Number normalisation: `CreateJID` and its country rewrites (pkg/utils/utils.go). */
module Jid {
  import opened Wrappers
  import opened Text

  datatype JidError = EmptyNumber | InvalidFormat

  type JidResult = Result<string, JidError>

  const USER := "@s.whatsapp.net"
  const GROUP := "@g.us"

  predicate IsDigit(c: char) {
    '0' <= c <= '9'
  }

  predicate IsGroupChar(c: char) {
    IsDigit(c) || c == '-'
  }

  predicate AllDigits(s: string) {
    forall i :: 0 <= i < |s| ==> IsDigit(s[i])
  }

  // ----- the code -----

  /** `strconv.Atoi` where the code uses it: on one or two characters, so it cannot overflow. */
  function Atoi(s: string): Option<int>
    requires |s| <= 2
  {
    if s == "" then None
    else if s[0] == '-' then (match Magnitude(s[1..]) case Some(n) => Some(-n) case None => None)
    else if s[0] == '+' then Magnitude(s[1..])
    else Magnitude(s)
  }

  function Magnitude(s: string): Option<int> {
    if s == "" || exists i :: 0 <= i < |s| && !IsDigit(s[i]) then None else Some(Value(s))
  }

  function Value(s: string): nat
    requires AllDigits(s)
  {
    if s == "" then 0 else 10 * Value(s[..|s| - 1]) + (s[|s| - 1] as int - '0' as int)
  }

  function FormatMXOrAR(jid: string): string {
    if |jid| < 2 then jid
    else
      var countryCode := jid[..2];
      if countryCode == "52" && |jid| == 13 then countryCode + jid[4..]
      else if countryCode == "54" && |jid| == 13 then countryCode + jid[3..]
      else jid
  }

  function FormatBR(jid: string): string {
    if |jid| != 13 || !("55" <= jid) then jid
    else
      match Atoi(jid[2..4])
      case None => jid
      case Some(ddd) =>
        if ddd < 11 || ddd > 99 then jid
        else
          match Atoi(jid[4..5])
          case None => jid
          case Some(first) =>
            if first >= 7 && ddd >= 31 then jid[..4] + jid[5..] else jid
  }

  /** The strings `CreateJID` hands back untouched. */
  predicate IsJid(s: string) {
    Contains(s, GROUP) || Contains(s, USER) || Contains(s, "@lid")
    || Contains(s, "@broadcast") || Contains(s, "@newsletter")
  }

  function Clean(number: string): string {
    UpTo(Delete(Delete(Delete(Delete(number, ' '), '+'), '('), ')'), ':')
  }

  function CreateJID(number: string): JidResult {
    if number == "" then Failure(EmptyNumber)
    else if IsJid(number) then Success(number)
    else
      var cleaned := Clean(number);
      if Contains(cleaned, "-") && |cleaned| >= 24 then Success(Filter(cleaned, IsGroupChar) + GROUP)
      else if |cleaned| >= 18 then Success(Filter(cleaned, IsGroupChar) + GROUP)
      else
        var digits := Filter(cleaned, IsDigit);
        if digits == "" then Failure(InvalidFormat)
        else
          var formatted := FormatBR(FormatMXOrAR(digits));
          Success((if "+" <= formatted then formatted else "+" + formatted) + USER)
  }

  // ----- country rewrites -----

  /**
   The numbers a country rewrite shortens, said of digits: 13 of them, and Mexico (52), Argentina
   (54), or Brazil (55) with an area code of at least 31 and a subscriber number starting 7 to 9.
   */
  predicate Shortens(d: string) {
    && |d| == 13
    && AllDigits(d)
    && d[0] == '5'
    && (d[1] == '2' || d[1] == '4' || (d[1] == '5' && (d[2] > '3' || (d[2] == '3' && d[3] > '0')) && d[4] > '6'))
  }

  /** Positions removed by the rewrite that applies to a number that `Shortens`. */
  function Short(d: string): string
    requires Shortens(d)
  {
    if d[1] == '2' then d[..2] + d[4..]       // Mexico loses positions 2 and 3
    else if d[1] == '4' then d[..2] + d[3..]  // Argentina loses position 2
    else d[..4] + d[5..]                      // Brazil loses position 4
  }

  /** What a digit string becomes. */
  function Canonical(d: string): string {
    if Shortens(d) then Short(d) else d
  }

  lemma {:induction false} AtoiDigits(s: string)
    requires 1 <= |s| <= 2 && AllDigits(s)
    ensures Atoi(s) == Some(Value(s))
    ensures |s| == 1 ==> Value(s) == s[0] as int - '0' as int
    ensures |s| == 2 ==> Value(s) == 10 * (s[0] as int - '0' as int) + (s[1] as int - '0' as int)
  {
    if |s| == 2 {
      AtoiDigits(s[..1]);
    }
  }

  lemma {:induction false} FormatBRMeaning(d: string)
    requires AllDigits(d)
    ensures FormatBR(d) == if Shortens(d) && d[1] == '5' then Short(d) else d
  {
    if |d| == 13 && "55" <= d {
      AtoiDigits(d[2..4]);
      AtoiDigits(d[4..5]);
    }
  }

  lemma FormatMXOrARMeaning(d: string)
    requires AllDigits(d)
    ensures FormatMXOrAR(d) == if Shortens(d) && d[1] != '5' then Short(d) else d
  {
  }

  /**
   On digit strings the two rewrites, in either order, shorten exactly the numbers that `Shortens`
   describes, and each is idempotent, so no result would be rewritten again by either.
   */
  lemma {:induction false} CountryRewrites(d: string)
    requires AllDigits(d)
    ensures FormatBR(FormatMXOrAR(d)) == Canonical(d) == FormatMXOrAR(FormatBR(d))
    ensures FormatMXOrAR(FormatMXOrAR(d)) == FormatMXOrAR(d)
    ensures FormatBR(FormatBR(d)) == FormatBR(d)
    ensures var n := Canonical(d);
      AllDigits(n) && !Shortens(n) && FormatMXOrAR(n) == n && FormatBR(n) == n
      && (d != "" ==> n != "") && |n| <= |d|
  {
    FormatMXOrARMeaning(d);
    FormatBRMeaning(d);
    FormatBRMeaning(FormatMXOrAR(d));
    FormatMXOrARMeaning(FormatBR(d));
    FormatMXOrARMeaning(Canonical(d));
    FormatBRMeaning(Canonical(d));
  }

  // ----- what CreateJID means -----

  /** Everything but the four separators that `CreateJID` strips. */
  predicate IsKept(c: char) {
    c != ' ' && c != '+' && c != '(' && c != ')'
  }

  predicate HasDigit(s: string) {
    exists i :: 0 <= i < |s| && IsDigit(s[i])
  }

  function PhoneJID(d: string): string {
    "+" + d + USER
  }

  lemma {:induction false} PlainIsNoJid(s: string)
    requires '@' !in s
    ensures !IsJid(s)
  {
    ContainsNeedsHead(s, GROUP);
    ContainsNeedsHead(s, USER);
    ContainsNeedsHead(s, "@lid");
    ContainsNeedsHead(s, "@broadcast");
    ContainsNeedsHead(s, "@newsletter");
  }

  /** The four deletions are one filter. */
  lemma {:induction false} StripIsOneFilter(s: string)
    ensures Delete(Delete(Delete(Delete(s, ' '), '+'), '('), ')') == Filter(s, IsKept)
  {
    FilterTwice(s, x => x != ' ', x => x != '+', x => x != ' ' && x != '+');
    FilterTwice(s, x => x != ' ' && x != '+', x => x != '(', x => x != ' ' && x != '+' && x != '(');
    FilterTwice(s, x => x != ' ' && x != '+' && x != '(', x => x != ')', IsKept);
  }

  /** Cleaning is: cut at the first colon, then drop the separators. */
  lemma {:induction false} CleanMeaning(s: string)
    ensures Clean(s) == Filter(UpTo(s, ':'), IsKept)
  {
    StripIsOneFilter(s);
    FilterUpTo(s, IsKept, ':');
  }

  lemma {:induction false} FilterDigits(s: string)
    ensures AllDigits(Filter(s, IsDigit))
    ensures Filter(s, IsDigit) != "" <==> HasDigit(s)
  {
    FilterOnly(s, IsDigit);
    if HasDigit(s) {
      var i :| 0 <= i < |s| && IsDigit(s[i]);
      FilterKeeps(s, IsDigit, i);
    } else {
      FilterNone(s, IsDigit);
    }
  }

  /**
   What `CreateJID` does to anything that is not already a JID, in this module's terms: cleaned text of
   18 or more bytes is a group, shorter text without a digit is refused, and the rest is a phone number
   in canonical form.
   */
  lemma {:induction false} CreateJIDCases(x: string)
    requires !IsJid(x)
    ensures var c := Filter(UpTo(x, ':'), IsKept);
      && (|c| >= 18 ==> CreateJID(x) == Success(Filter(c, IsGroupChar) + GROUP))
      && (|c| < 18 && HasDigit(c) ==> CreateJID(x) == Success(PhoneJID(Canonical(Filter(c, IsDigit)))))
      && (|c| < 18 && !HasDigit(c) ==> CreateJID(x) == Failure(if x == "" then EmptyNumber else InvalidFormat))
  {
    CleanMeaning(x);
    var c := Clean(x);
    FilterDigits(c);
    var d := Filter(c, IsDigit);
    CountryRewrites(d);
    if |c| < 18 && d != "" {
      assert !("+" <= Canonical(d)) by { assert IsDigit(Canonical(d)[0]); }
    }
  }

  /**
   The same without this module's terms, without the order of the cleaning steps, and without the
   redundant branches: cut at the first colon and drop the four separators; 18 or more bytes make a
   group that keeps digits and hyphens; fewer make a phone number that keeps digits, of which there
   has to be one.
   */
  lemma {:induction false} CreateJIDMeaning(x: string)
    requires !IsJid(x)
    ensures var c := Filter(UpTo(x, ':'), k => k != ' ' && k != '+' && k != '(' && k != ')');
      var digits := Filter(c, k => '0' <= k <= '9');
      && (|c| >= 18 ==> CreateJID(x) == Success(Filter(c, k => '0' <= k <= '9' || k == '-') + "@g.us"))
      && (|c| < 18 && digits != "" ==> CreateJID(x) == Success("+" + Canonical(digits) + "@s.whatsapp.net"))
      && (|c| < 18 && digits == "" ==> CreateJID(x) == Failure(if x == "" then EmptyNumber else InvalidFormat))
  {
    CreateJIDCases(x);
    FilterSame(UpTo(x, ':'), IsKept, k => k != ' ' && k != '+' && k != '(' && k != ')');
    var c := Filter(UpTo(x, ':'), IsKept);
    FilterDigits(c);
    FilterSame(c, IsDigit, k => '0' <= k <= '9');
    FilterSame(c, IsGroupChar, k => '0' <= k <= '9' || k == '-');
  }

  /** Which inputs are handed back as they came: those that contain one of five literals. */
  lemma {:induction false} HandedBackIff(x: string)
    ensures CreateJID(x) == Success(x) <==>
      || Contains(x, "@g.us") || Contains(x, "@s.whatsapp.net") || Contains(x, "@lid")
      || Contains(x, "@broadcast") || Contains(x, "@newsletter")
  {
    if CreateJID(x).Success? {
      CreateJIDShape(x);
    }
  }

  /** `j` is "+", 1 to 17 digits that no country rewrite would shorten, and the user suffix. */
  predicate IsPhoneJID(j: string) {
    var n := |j| - 1 - |USER|;
    1 <= n <= 17 && IsPhoneNumber(j[1..n + 1]) && j == PhoneJID(j[1..n + 1])
  }

  predicate IsPhoneNumber(d: string) {
    1 <= |d| <= 17 && AllDigits(d) && !Shortens(d)
  }

  predicate IsGroupJID(j: string) {
    && |j| >= |GROUP|
    && j == j[..|j| - |GROUP|] + GROUP
    && forall i :: 0 <= i < |j| - |GROUP| ==> '0' <= j[i] <= '9' || j[i] == '-'
  }

  lemma {:induction false} PhoneShape(d: string)
    requires IsPhoneNumber(d)
    ensures IsPhoneJID(PhoneJID(d))
    ensures IsJid(PhoneJID(d)) && Contains(PhoneJID(d), USER)
    ensures UpTo(PhoneJID(d), '@') == "+" + d
  {
    var j := PhoneJID(d);
    assert j[1..|d| + 1] == d;
    ContainsSuffix("+" + d, USER);
    assert j == "+" + d + ['@'] + USER[1..];
    UpToAppend("+" + d, '@', USER[1..]);
  }

  /** The phone part of a phone JID normalises back to that JID. */
  lemma {:induction false} PhonePart(d: string)
    requires IsPhoneNumber(d)
    ensures !IsJid("+" + d) && CreateJID("+" + d) == Success(PhoneJID(d))
  {
    var x := "+" + d;
    PlainIsNoJid(x);
    UpToAbsent(x, ':');
    FilterAppend("+", d, IsKept);
    FilterNone("+", IsKept);
    OneDigitRun(x, d);
  }

  /** Input that cleans to nothing but digits. */
  lemma {:induction false} OneDigitRun(x: string, d: string)
    requires !IsJid(x) && Filter(UpTo(x, ':'), IsKept) == Filter(d, IsKept)
    requires 1 <= |d| <= 17 && AllDigits(d)
    ensures CreateJID(x) == Success(PhoneJID(Canonical(d)))
  {
    CreateJIDCases(x);
    FilterAll(d, IsKept);
    FilterAll(d, IsDigit);
    assert HasDigit(d) by { assert IsDigit(d[0]); }
  }

  lemma {:induction false} GroupShape(g: string)
    requires forall i :: 0 <= i < |g| ==> IsGroupChar(g[i])
    ensures IsGroupJID(g + GROUP)
    ensures IsJid(g + GROUP) && !Contains(g + GROUP, USER)
  {
    var j := g + GROUP;
    assert j[..|g|] == g;
    ContainsSuffix(g, GROUP);
    forall i | 0 <= i <= |j| - |USER|
      ensures !OccursAt(j, USER, i)
    {
      assert IsGroupChar(j[i]);
      assert j[i] == j[i..i + |USER|][0];
    }
  }

  /** Every success is a JID that `CreateJID` keeps: a phone JID, a group JID, or the input itself. */
  lemma {:induction false} CreateJIDShape(x: string)
    requires CreateJID(x).Success?
    ensures var j := CreateJID(x).value;
      && IsJid(j) && j != ""
      && CreateJID(j) == Success(j)
      && (if IsJid(x) then j == x else IsPhoneJID(j) || IsGroupJID(j))
  {
    if !IsJid(x) {
      CreateJIDCases(x);
      var c := Filter(UpTo(x, ':'), IsKept);
      if |c| >= 18 {
        FilterOnly(c, IsGroupChar);
        GroupShape(Filter(c, IsGroupChar));
      } else {
        var d := Filter(c, IsDigit);
        FilterDigits(c);
        FilterOnly(c, IsDigit);
        CountryRewrites(d);
        PhoneShape(Canonical(d));
      }
    }
  }

  /** Eighteen letters: enough to reach the group branch, and nothing of them is left in the result. */
  const PADDING: string := seq(18, _ => 'a')

  lemma {:induction false} PaddedGroup(g: string)
    requires forall i :: 0 <= i < |g| ==> IsGroupChar(g[i])
    ensures var x := g + PADDING;
      !IsJid(x) && UpTo(x, ':') == x && Filter(x, IsKept) == x && Filter(x, IsGroupChar) == g
  {
    var x := g + PADDING;
    PlainIsNoJid(x);
    UpToAbsent(x, ':');
    FilterAll(x, IsKept);
    FilterAppend(g, PADDING, IsGroupChar);
    FilterAll(g, IsGroupChar);
    FilterNone(PADDING, IsGroupChar);
  }

  lemma {:induction false} EveryGroupIsProduced(g: string)
    requires forall i :: 0 <= i < |g| ==> IsGroupChar(g[i])
    ensures !IsJid(g + PADDING) && CreateJID(g + PADDING) == Success(g + GROUP)
  {
    PaddedGroup(g);
    CreateJIDCases(g + PADDING);
  }

  /** Two runs of digits joined by a hyphen keep it, once they are long enough to be a group. */
  lemma {:induction false} GroupKeepsHyphen(a: string, b: string)
    requires forall i :: 0 <= i < |a| ==> '0' <= a[i] <= '9'
    requires forall i :: 0 <= i < |b| ==> '0' <= b[i] <= '9'
    requires |a| + 1 + |b| >= 18
    ensures CreateJID(a + "-" + b) == Success(a + "-" + b + "@g.us")
  {
    var x := a + "-" + b;
    PlainIsNoJid(x);
    UpToAbsent(x, ':');
    FilterAll(x, IsKept);
    FilterAll(x, IsGroupChar);
    CreateJIDCases(x);
  }

  /** The exact image of `CreateJID` on inputs that are not JIDs already. */
  lemma {:induction false} CreateJIDImage(j: string)
    ensures (exists x :: !IsJid(x) && CreateJID(x) == Success(j)) <==> IsPhoneJID(j) || IsGroupJID(j)
  {
    if exists x :: !IsJid(x) && CreateJID(x) == Success(j) {
      var x :| !IsJid(x) && CreateJID(x) == Success(j);
      CreateJIDShape(x);
    }
    if IsPhoneJID(j) {
      PhonePart(j[1..|j| - |USER|]);
    }
    if IsGroupJID(j) {
      EveryGroupIsProduced(j[..|j| - |GROUP|]);
    }
  }

  /** Both succeed with the same JID, or both fail. */
  predicate Agree(a: JidResult, b: JidResult) {
    a.Success? || b.Success? ==> a == b
  }

  /** Spaces, plus signs, parentheses and anything after the first colon never matter. */
  lemma {:induction false} SeparatorsDoNotMatter(x: string, y: string)
    requires !IsJid(x) && !IsJid(y)
    requires UpTo(Filter(x, IsKept), ':') == UpTo(Filter(y, IsKept), ':')
    ensures Agree(CreateJID(x), CreateJID(y))
  {
    FilterUpTo(x, IsKept, ':');
    FilterUpTo(y, IsKept, ':');
    CreateJIDCases(x);
    CreateJIDCases(y);
  }

  /** Text after a colon is dropped, whatever it is, unless it makes the input a JID. */
  lemma {:induction false} DeviceSuffixDoesNotMatter(x: string, device: string)
    requires !IsJid(x) && !IsJid(x + ":" + device)
    ensures Agree(CreateJID(x + ":" + device), CreateJID(x))
  {
    var k := Filter(x, IsKept);
    FilterAppend(x + ":", device, IsKept);
    FilterAppend(x, ":", IsKept);
    FilterAll(":", IsKept);
    CutAtColon(k, Filter(device, IsKept));
    SeparatorsDoNotMatter(x + ":" + device, x);
  }

  lemma {:induction false} CutAtColon(a: string, b: string)
    ensures UpTo(a + ":" + b, ':') == UpTo(a, ':')
  {
    if a != [] {
      assert (a + ":" + b)[1..] == a[1..] + ":" + b;
      CutAtColon(a[1..], b);
    }
  }

  /**
   Two phone inputs get the same JID exactly when their digits are equal, or one is the shortened
   form of the other, or both shorten to the same number.
   */
  lemma {:induction false} ExactCollisions(x: string, y: string)
    requires !IsJid(x) && |Clean(x)| < 18 && HasDigit(Clean(x))
    requires !IsJid(y) && |Clean(y)| < 18 && HasDigit(Clean(y))
    ensures var a, b := Filter(Clean(x), IsDigit), Filter(Clean(y), IsDigit);
      CreateJID(x) == CreateJID(y) <==>
        || a == b
        || (Shortens(a) && Short(a) == b)
        || (Shortens(b) && Short(b) == a)
        || (Shortens(a) && Shortens(b) && Short(a) == Short(b))
  {
    CleanMeaning(x);
    CleanMeaning(y);
    CreateJIDCases(x);
    CreateJIDCases(y);
    var a, b := Filter(Clean(x), IsDigit), Filter(Clean(y), IsDigit);
    FilterDigits(Clean(x));
    FilterDigits(Clean(y));
    CountryRewrites(a);
    CountryRewrites(b);
    PhoneJIDInjective(Canonical(a), Canonical(b));
  }

  lemma {:induction false} PhoneJIDInjective(m: string, n: string)
    ensures PhoneJID(m) == PhoneJID(n) <==> m == n
  {
    if PhoneJID(m) == PhoneJID(n) {
      assert PhoneJID(m)[1..|m| + 1] == m;
      assert PhoneJID(n)[1..|n| + 1] == n;
    }
  }

  /** Mexican numbers of 13 digits lose the two after the country code. */
  lemma {:induction false} MexicoExtraDigits(extra: string, rest: string)
    requires |extra| == 2 && AllDigits(extra) && |rest| == 9 && AllDigits(rest)
    ensures CreateJID("52" + extra + rest) == CreateJID("52" + rest) == Success("+52" + rest + "@s.whatsapp.net")
  {
    var long, short := "52" + extra + rest, "52" + rest;
    assert Shortens(long) && Short(long) == short;
    ExtraDigits(long, short);
    assert "+" + short == "+52" + rest;
  }

  /** Argentine numbers of 13 digits lose the one after the country code. */
  lemma {:induction false} ArgentinaExtraDigit(extra: char, rest: string)
    requires '0' <= extra <= '9' && |rest| == 10 && AllDigits(rest)
    ensures CreateJID("54" + [extra] + rest) == CreateJID("54" + rest) == Success("+54" + rest + "@s.whatsapp.net")
  {
    var long, short := "54" + [extra] + rest, "54" + rest;
    assert Shortens(long) && Short(long) == short;
    ExtraDigits(long, short);
    assert "+" + short == "+54" + rest;
  }

  /** In Brazil, from area code 31 up, the extra mobile digit 7 to 9 changes nothing. */
  lemma {:induction false} BrazilExtraDigit(ddd: string, extra: char, rest: string)
    requires |ddd| == 2 && AllDigits(ddd) && (ddd[0] > '3' || (ddd[0] == '3' && ddd[1] > '0'))
    requires '7' <= extra <= '9'
    requires |rest| == 8 && AllDigits(rest)
    ensures CreateJID("55" + ddd + [extra] + rest) == CreateJID("55" + ddd + rest)
      == Success("+55" + ddd + rest + "@s.whatsapp.net")
  {
    var long, short := "55" + ddd + [extra] + rest, "55" + ddd + rest;
    assert Shortens(long) && Short(long) == short;
    ExtraDigits(long, short);
    assert "+" + short == "+55" + ddd + rest;
  }

  lemma {:induction false} ExtraDigits(long: string, short: string)
    requires Shortens(long) && Short(long) == short
    ensures CreateJID(long) == CreateJID(short) == Success("+" + short + "@s.whatsapp.net")
  {
    CountryRewrites(long);
    DigitsOnly(long);
    DigitsOnly(short);
  }

  /**
   All other digit strings are kept: those that do not have 13 digits, those of other countries, and
   Brazilian ones with an area code up to 30 or a subscriber number starting 0 to 6.
   */
  lemma {:induction false} OtherNumbersAreKept(d: string)
    requires 1 <= |d| <= 17 && forall i :: 0 <= i < |d| ==> '0' <= d[i] <= '9'
    requires |d| != 13 || d[0] != '5' || (d[1] != '2' && d[1] != '4' && d[1] != '5')
      || (d[1] == '5' && (d[2] < '3' || (d[2] == '3' && d[3] == '0') || d[4] < '7'))
    ensures CreateJID(d) == Success("+" + d + "@s.whatsapp.net")
  {
    DigitsOnly(d);
  }

  lemma {:induction false} DigitsOnly(d: string)
    requires AllDigits(d) && 1 <= |d| <= 17
    ensures CreateJID(d) == Success(PhoneJID(Canonical(d)))
  {
    PlainIsNoJid(d);
    UpToAbsent(d, ':');
    OneDigitRun(d, d);
  }

  // ----- ParseJID -----

  /** The string `ParseJID` hands to whatsmeow's parser, or `None` where it gives up before that. */
  function ParseJIDText(arg: string): Option<string> {
    if arg == "" then None
    else
      match CreateJID(arg)
      case Failure(_) => None
      case Success(j) => Some(j)
  }

  /**
   `ParseJID` gives up exactly where `CreateJID` fails, and otherwise hands on the same text whether
   or not its argument was normalised before.
   */
  lemma {:induction false} ParseAfterCreate(x: string)
    ensures ParseJIDText(x) == None <==> CreateJID(x).Failure?
    ensures CreateJID(x).Success? ==>
      ParseJIDText(CreateJID(x).value) == ParseJIDText(x) == Some(CreateJID(x).value)
  {
    if CreateJID(x).Success? {
      CreateJIDShape(x);
    }
  }
}
