/**
 The request-body middleware (pkg/middleware/jid_validation_middleware.go), from the decoded body to
 the decoded body that is forwarded. A body that was not modified is forwarded as it came.
 */
module JidValidation {
  import opened Wrappers
  import opened JsonValue
  import opened Jid

  type Body = map<string, Json>

  /** What is wrong with one value: it is no text or empty, or `CreateJID` refuses it. */
  datatype Complaint = Missing | Invalid(e: JidError)

  datatype Error =
    | EmptyArray
    | WrongType
    | BadField(name: string, why: Complaint)
    | BadItem(name: string, i: nat, why: Complaint)

  datatype Verdict = Forward(modified: bool) | Reject(error: Error)

  // ----- what is demanded of the values -----

  /** How a handler treats one value. */
  datatype Check =
    | NumberNeeded   // must be text that `CreateJID` accepts, and becomes that JID
    | NumberIfText   // the same for non-empty text; anything else is let through
    | TextNeeded     // must be non-empty text, and stays as it is

  function Item(check: Check, v: Json): Result<Json, Complaint> {
    if !v.Str? || v.s == "" then (if check == NumberIfText then Success(v) else Failure(Missing))
    else if check == TextNeeded then Success(v)
    else
      match CreateJID(v.s)
      case Success(j) => Success(Str(j))
      case Failure(e) => Failure(Invalid(e))
  }

  ghost predicate AllAccepted(items: seq<Json>, check: Check) {
    forall i :: 0 <= i < |items| ==> Item(check, items[i]).Success?
  }

  function Mapped(items: seq<Json>, check: Check): (r: seq<Json>)
    requires AllAccepted(items, check)
    ensures |r| == |items|
    ensures forall i :: 0 <= i < |r| ==> r[i] == Item(check, items[i]).value
  {
    seq(|items|, i requires 0 <= i < |items| => Item(check, items[i]).value)
  }

  /** A number field: text, or a list of texts that is not empty. */
  ghost predicate Accepted(v: Json, check: Check) {
    || (v.Str? && Item(check, v).Success?)
    || (v.Arr? && v.items != [] && AllAccepted(v.items, check))
  }

  function Normalized(v: Json, check: Check): Json
    requires Accepted(v, check)
  {
    if v.Str? then Item(check, v).value else Arr(Mapped(v.items, check))
  }

  /** The error names the first item that is not accepted. */
  ghost predicate IsFirstBad(name: string, items: seq<Json>, check: Check, error: Error) {
    && error.BadItem? && error.name == name
    && error.i < |items|
    && Item(check, items[error.i]) == Failure(error.why)
    && AllAccepted(items[..error.i], check)
  }

  ghost predicate ErrorFits(v: Json, check: Check, error: Error) {
    match v
    case Str(_) => exists why :: Item(check, v) == Failure(why) && error == BadField("number", why)
    case Arr(items) => if items == [] then error == EmptyArray else IsFirstBad("number", items, check, error)
    case _ => error == WrongType
  }

  /**
   A body whose "number" field, if it has one, is checked with `check`: the verdict, and the body
   that is forwarded. Other fields are forwarded as they are.
   */
  ghost predicate Validated(body: Body, check: Check, verdict: Verdict, forwarded: Body) {
    if "number" !in body then verdict == Forward(false) && forwarded == body
    else
      var v := body["number"];
      if Accepted(v, check)
      then verdict == Forward(Normalized(v, check) != v) && forwarded == body["number" := Normalized(v, check)]
      else verdict.Reject? && ErrorFits(v, check, verdict.error)
  }

  // ----- the loops over arrays, each handler's own -----

  // The array of a field is overwritten entry by entry. `items` is the array as decoded, `out` the
  // array as the loop leaves it; the handlers put it back, because in Go it is the field's own array.

  /** The loop of `ValidateNumberField`. */
  method NumberItems(items: seq<Json>) returns (verdict: Verdict, out: seq<Json>)
    ensures ItemsValidated("number", items, NumberNeeded, verdict, out)
  {
    out := items;
    var modified := false;
    ghost var check := NumberNeeded;
    for i := 0 to |items|
      invariant Progress(items, check, i, out, modified)
    {
      var item := items[i];
      ProgressStep("number", items, check, i, out, modified);
      if item.Str? && item.s != "" {
        var normalized := CreateJID(item.s);
        if normalized.Failure? {
          return Reject(BadItem("number", i, Invalid(normalized.error))), out;
        }
        if normalized.value != item.s {
          out := out[i := Str(normalized.value)];
          modified := true;
        }
      } else {
        return Reject(BadItem("number", i, Missing)), out;
      }
    }
    ProgressEnd("number", items, check, out, modified);
    verdict := Forward(modified);
  }

  /** The loop of `ValidateNumberFieldWithFormatJid`. */
  method FormatItems(items: seq<Json>, formatJid: bool) returns (verdict: Verdict, out: seq<Json>)
    ensures ItemsValidated("number", items, if formatJid then NumberNeeded else TextNeeded, verdict, out)
  {
    out := items;
    var modified := false;
    ghost var check := if formatJid then NumberNeeded else TextNeeded;
    for i := 0 to |items|
      invariant Progress(items, check, i, out, modified)
    {
      var item := items[i];
      ProgressStep("number", items, check, i, out, modified);
      if item.Str? && item.s != "" {
        if formatJid {
          var normalized := CreateJID(item.s);
          if normalized.Failure? {
            return Reject(BadItem("number", i, Invalid(normalized.error))), out;
          }
          if normalized.value != item.s {
            out := out[i := Str(normalized.value)];
            modified := true;
          }
        }
      } else {
        return Reject(BadItem("number", i, Missing)), out;
      }
    }
    ProgressEnd("number", items, check, out, modified);
    verdict := Forward(modified);
  }

  /** The loop of `ValidateMultipleNumbers`. */
  method MultipleItems(fieldName: string, items: seq<Json>) returns (verdict: Verdict, out: seq<Json>)
    ensures ItemsValidated(fieldName, items, NumberIfText, verdict, out)
  {
    out := items;
    var modified := false;
    ghost var check := NumberIfText;
    for i := 0 to |items|
      invariant Progress(items, check, i, out, modified)
    {
      var item := items[i];
      ProgressStep(fieldName, items, check, i, out, modified);
      if item.Str? && item.s != "" {
        var normalized := CreateJID(item.s);
        if normalized.Failure? {
          return Reject(BadItem(fieldName, i, Invalid(normalized.error))), out;
        }
        if normalized.value != item.s {
          out := out[i := Str(normalized.value)];
          modified := true;
        }
      }
    }
    ProgressEnd(fieldName, items, check, out, modified);
    verdict := Forward(modified);
  }

  ghost predicate ItemsValidated(name: string, items: seq<Json>, check: Check, verdict: Verdict, out: seq<Json>) {
    if AllAccepted(items, check) then verdict == Forward(Mapped(items, check) != items) && out == Mapped(items, check)
    else verdict.Reject? && IsFirstBad(name, items, check, verdict.error)
  }

  /** Before turn `i`: the entries up to `i` are accepted and overwritten, the rest is as it came. */
  ghost predicate Progress(items: seq<Json>, check: Check, i: nat, out: seq<Json>, modified: bool) {
    && i <= |items| == |out|
    && (forall k :: 0 <= k < i ==> Item(check, items[k]) == Success(out[k]))
    && items[i..] == out[i..]
    && (modified <==> out != items)
  }

  lemma ProgressEnd(name: string, items: seq<Json>, check: Check, out: seq<Json>, modified: bool)
    requires Progress(items, check, |items|, out, modified)
    ensures ItemsValidated(name, items, check, Forward(modified), out)
  {
  }

  lemma ProgressStep(name: string, items: seq<Json>, check: Check, i: nat, out: seq<Json>, modified: bool)
    requires i < |items| && Progress(items, check, i, out, modified)
    ensures |out| == |items|
    ensures var r := Item(check, items[i]);
      && (r.Success? && r.value == items[i] ==> Progress(items, check, i + 1, out, modified))
      && (r.Success? && r.value != items[i] ==> Progress(items, check, i + 1, out[i := r.value], true))
      && (r.Failure? ==> ItemsValidated(name, items, check, Reject(BadItem(name, i, r.error)), out))
  {
  }

  // ----- the middleware -----

  class Request {
    var data: Body

    constructor (data: Body)
      ensures this.data == data
    {
      this.data := data;
    }

    method ValidateNumberField() returns (verdict: Verdict)
      modifies this
      ensures Validated(old(data), NumberNeeded, verdict, data)
    {
      var modified := false;
      if "number" in data {
        var value := data["number"];
        if value.Arr? {
          if |value.items| == 0 {
            return Reject(EmptyArray);
          }
          var out;
          verdict, out := NumberItems(value.items);
          data := data["number" := Arr(out)];
          return;
        } else if value.Str? {
          if value.s == "" {
            return Reject(BadField("number", Missing));
          }
          var normalized := CreateJID(value.s);
          if normalized.Failure? {
            return Reject(BadField("number", Invalid(normalized.error)));
          }
          if normalized.value != value.s {
            data := data["number" := Str(normalized.value)];
            modified := true;
          }
        } else {
          return Reject(WrongType);
        }
      }
      return Forward(modified);
    }

    method ValidateNumberFieldWithFormatJid() returns (verdict: Verdict)
      modifies this
      ensures if "formatJid" in old(data) && old(data)["formatJid"] == Bool(false)
        then Validated(old(data), TextNeeded, verdict, data)
        else Validated(old(data), NumberNeeded, verdict, data)
    {
      var formatJid := true;
      if "formatJid" in data {
        var formatJidValue := data["formatJid"];
        if formatJidValue.Bool? {
          formatJid := formatJidValue.b;
        }
      }
      var modified := false;
      if "number" in data {
        var value := data["number"];
        if value.Arr? {
          if |value.items| == 0 {
            return Reject(EmptyArray);
          }
          var out;
          verdict, out := FormatItems(value.items, formatJid);
          data := data["number" := Arr(out)];
          return;
        } else if value.Str? {
          if value.s == "" {
            return Reject(BadField("number", Missing));
          }
          if formatJid {
            var normalized := CreateJID(value.s);
            if normalized.Failure? {
              return Reject(BadField("number", Invalid(normalized.error)));
            }
            if normalized.value != value.s {
              data := data["number" := Str(normalized.value)];
              modified := true;
            }
          }
        } else {
          return Reject(WrongType);
        }
      }
      return Forward(modified);
    }

    /** A list field in which only non-empty texts are checked; a field of another type is ignored. */
    method ValidateMultipleNumbers(fieldName: string) returns (verdict: Verdict)
      modifies this
      ensures if fieldName in old(data) && old(data)[fieldName].Arr? then
          exists out :: ItemsValidated(fieldName, old(data)[fieldName].items, NumberIfText, verdict, out)
                        && data == old(data)[fieldName := Arr(out)]
        else verdict == Forward(false) && data == old(data)
    {
      if fieldName in data && data[fieldName].Arr? {
        var out;
        verdict, out := MultipleItems(fieldName, data[fieldName].items);
        data := data[fieldName := Arr(out)];
      } else {
        verdict := Forward(false);
      }
    }

    /** Named fields, each of which must be a number if it is there. A name may come twice. */
    method ValidateJIDFields(fieldNames: seq<string>) returns (verdict: Verdict)
      modifies this
      ensures if FieldsAccepted(old(data), fieldNames)
        then
          && verdict == Forward(FieldsMapped(old(data), fieldNames) != old(data))
          && data == FieldsMapped(old(data), fieldNames)
        else verdict.Reject? && IsFirstBadField(old(data), fieldNames, verdict.error)
    {
      ghost var body := data;
      var modified := false;
      for i := 0 to |fieldNames|
        invariant FieldsAccepted(body, fieldNames[..i])
        invariant data == FieldsMapped(body, fieldNames[..i])
        invariant modified <==> data != body
      {
        var fieldName := fieldNames[i];
        FieldsStep(body, fieldNames, i);
        if fieldName in data {
          var value := data[fieldName];
          if value.Str? && value.s != "" {
            var normalized := CreateJID(value.s);
            if normalized.Failure? {
              return Reject(BadField(fieldName, Invalid(normalized.error)));
            }
            if normalized.value != value.s {
              data := data[fieldName := Str(normalized.value)];
              modified := true;
            }
          } else {
            return Reject(BadField(fieldName, Missing));
          }
        }
      }
      assert fieldNames[..|fieldNames|] == fieldNames;
      return Forward(modified);
    }
  }

  // ----- the loop over field names -----

  ghost predicate FieldsAccepted(body: Body, names: seq<string>) {
    forall i :: 0 <= i < |names| && names[i] in body ==> Item(NumberNeeded, body[names[i]]).Success?
  }

  ghost function FieldsMapped(body: Body, names: seq<string>): Body
    requires FieldsAccepted(body, names)
  {
    map k | k in body :: if k in names then Item(NumberNeeded, body[k]).value else body[k]
  }

  ghost predicate IsFirstBadField(body: Body, names: seq<string>, error: Error) {
    && error.BadField?
    && exists i :: 0 <= i < |names| && names[i] == error.name && error.name in body
                   && Item(NumberNeeded, body[error.name]) == Failure(error.why) && FieldsAccepted(body, names[..i])
  }

  /** What `NumberNeeded` accepts it accepts again, unchanged. */
  lemma {:induction false} ItemIsFixed(v: Json)
    requires Item(NumberNeeded, v).Success?
    ensures Item(NumberNeeded, Item(NumberNeeded, v).value) == Item(NumberNeeded, v)
  {
    CreateJIDShape(v.s);
  }

  lemma FieldsMore(body: Body, names: seq<string>, i: nat)
    requires i < |names| && FieldsAccepted(body, names[..i])
    requires names[i] in body ==> Item(NumberNeeded, body[names[i]]).Success?
    ensures FieldsAccepted(body, names[..i + 1])
    ensures var name, data := names[i], FieldsMapped(body, names[..i]);
      FieldsMapped(body, names[..i + 1]) ==
        if name in body then data[name := Item(NumberNeeded, body[name]).value] else data
  {
  }

  lemma {:induction false} FieldsAgain(body: Body, names: seq<string>, name: string)
    requires FieldsAccepted(body, names) && name in body
    ensures var data := FieldsMapped(body, names);
      && Item(NumberNeeded, data[name]) == Item(NumberNeeded, body[name])
      && (Item(NumberNeeded, body[name]) == Success(body[name]) ==> data[name] == body[name])
  {
    if name in names {
      ItemIsFixed(body[name]);
    }
  }

  lemma {:induction false} FieldsStep(body: Body, names: seq<string>, i: nat)
    requires i < |names| && FieldsAccepted(body, names[..i])
    ensures var name, data := names[i], FieldsMapped(body, names[..i]);
      && (name in data <==> name in body)
      && (name !in body ==> FieldsAccepted(body, names[..i + 1]) && FieldsMapped(body, names[..i + 1]) == data)
      && (name in body ==>
            var r := Item(NumberNeeded, data[name]);
            if r.Success? then
              && FieldsAccepted(body, names[..i + 1])
              && FieldsMapped(body, names[..i + 1]) == data[name := r.value]
              && (r.value == data[name] ==> data[name := r.value] == data)
              && (r.value != data[name] || data != body ==> data[name := r.value] != body)
            else !FieldsAccepted(body, names) && IsFirstBadField(body, names, BadField(name, r.error)))
  {
    var name, data := names[i], FieldsMapped(body, names[..i]);
    if name in body {
      FieldsAgain(body, names[..i], name);
      if Item(NumberNeeded, body[name]).Success? {
        FieldsMore(body, names, i);
        ChangeIsSeen(body, data, name, Item(NumberNeeded, body[name]).value);
      }
    } else {
      FieldsMore(body, names, i);
    }
  }

  /** Overwriting one entry does not bring a body back, unless it was only that entry that differed. */
  lemma ChangeIsSeen(body: Body, data: Body, name: string, v: Json)
    requires name in body && name in data
    requires v == body[name] ==> data[name] == body[name]
    ensures v != data[name] || data != body ==> data[name := v] != body
  {
  }

  // ----- what follows for callers -----

  /** The verdict and, on acceptance, the forwarded body are determined by the body. */
  lemma ValidatedIsAFunction(body: Body, check: Check, v1: Verdict, d1: Body, v2: Verdict, d2: Body)
    requires Validated(body, check, v1, d1) && Validated(body, check, v2, d2)
    ensures v1 == v2
    ensures v1.Forward? ==> d1 == d2
  {
  }

  /** When is a body accepted: said of the texts in it. */
  lemma AcceptedMeaning(v: Json)
    ensures Accepted(v, NumberNeeded) <==>
      || (v.Str? && v.s != "" && CreateJID(v.s).Success?)
      || (v.Arr? && v.items != []
          && forall i :: 0 <= i < |v.items| ==>
               v.items[i].Str? && v.items[i].s != "" && CreateJID(v.items[i].s).Success?)
    ensures Accepted(v, TextNeeded) <==>
      || (v.Str? && v.s != "")
      || (v.Arr? && v.items != [] && forall i :: 0 <= i < |v.items| ==> v.items[i].Str? && v.items[i].s != "")
    ensures Accepted(v, TextNeeded) ==> Normalized(v, TextNeeded) == v
  {
  }

  /**
   `ValidateJIDFields` demands non-empty text of every named field that is present. In particular a
   body with a list in such a field is refused, whatever the list holds.
   */
  lemma FieldsAcceptedMeaning(body: Body, names: seq<string>)
    ensures FieldsAccepted(body, names) <==>
      forall k :: k in names && k in body ==> body[k].Str? && body[k].s != "" && CreateJID(body[k].s).Success?
  {
  }

  /** What `ValidateJIDFields` forwards: the named fields become JIDs, all others stay. */
  lemma FieldsMappedMeaning(body: Body, names: seq<string>, k: string)
    requires FieldsAccepted(body, names)
    ensures var data := FieldsMapped(body, names);
      && (k in data <==> k in body)
      && (k in body && k in names ==> data[k].Str? && CreateJID(body[k].s) == Success(data[k].s))
      && (k in body && k !in names ==> data[k] == body[k])
  {
  }

  /** And what it reports: the first named field that is no number, and why. */
  lemma FirstBadFieldMeaning(body: Body, names: seq<string>, error: Error)
    requires IsFirstBadField(body, names, error)
    ensures error.BadField? && error.name in names && error.name in body
    ensures var v := body[error.name];
      if v.Str? && v.s != "" then CreateJID(v.s).Failure? && error.why == Invalid(CreateJID(v.s).error)
      else error.why == Missing
    ensures exists i ::
      0 <= i < |names| && names[i] == error.name
      && forall k :: k in names[..i] && k in body ==> body[k].Str? && body[k].s != "" && CreateJID(body[k].s).Success?
  {
  }

  /** `v` is one number, refused as `why`. */
  ghost predicate RefusedAs(v: Json, formatJid: bool, why: Complaint) {
    if !v.Str? || v.s == "" then why == Missing
    else formatJid && CreateJID(v.s).Failure? && why == Invalid(CreateJID(v.s).error)
  }

  /** `v` is one number, forwarded as `w`. */
  ghost predicate ForwardedAs(v: Json, formatJid: bool, w: Json) {
    v.Str? && v.s != "" && if formatJid then w.Str? && CreateJID(v.s) == Success(w.s) else w == v
  }

  lemma ItemMeaning(v: Json, formatJid: bool)
    ensures match Item(if formatJid then NumberNeeded else TextNeeded, v)
      case Success(w) => ForwardedAs(v, formatJid, w)
      case Failure(why) => RefusedAs(v, formatJid, why)
  {
  }

  /** What happens to a body whose number is not a list: accepted or refused for what reason, and forwarded as what. */
  lemma {:induction false} SingleNumber(body: Body, formatJid: bool, verdict: Verdict, forwarded: Body)
    requires Validated(body, if formatJid then NumberNeeded else TextNeeded, verdict, forwarded)
    requires "number" in body && !body["number"].Arr?
    ensures !body["number"].Str? ==> verdict == Reject(WrongType)
    ensures body["number"].Str? ==>
      match verdict
      case Reject(error) => exists why :: error == BadField("number", why) && RefusedAs(body["number"], formatJid, why)
      case Forward(modified) =>
        && "number" in forwarded && ForwardedAs(body["number"], formatJid, forwarded["number"])
        && forwarded == body["number" := forwarded["number"]] && (modified <==> forwarded != body)
  {
    var v := body["number"];
    ItemMeaning(v, formatJid);
    if verdict.Forward? {
      assert body["number" := v] == body;
    }
  }

  /** The same for a list of numbers: every one becomes its JID, or the first bad one is reported. */
  lemma {:induction false} NumberList(body: Body, formatJid: bool, verdict: Verdict, forwarded: Body)
    requires Validated(body, if formatJid then NumberNeeded else TextNeeded, verdict, forwarded)
    requires "number" in body && body["number"].Arr?
    ensures var items := body["number"].items;
      if items == [] then verdict == Reject(EmptyArray)
      else match verdict
        case Forward(modified) =>
          && "number" in forwarded && forwarded["number"].Arr? && |forwarded["number"].items| == |items|
          && (forall i :: 0 <= i < |items| ==> ForwardedAs(items[i], formatJid, forwarded["number"].items[i]))
          && forwarded == body["number" := forwarded["number"]] && (modified <==> forwarded != body)
        case Reject(error) =>
          && error.BadItem? && error.name == "number" && error.i < |items|
          && RefusedAs(items[error.i], formatJid, error.why)
          && forall i, why :: 0 <= i < error.i ==> !RefusedAs(items[i], formatJid, why)
  {
    var items := body["number"].items;
    forall i | 0 <= i < |items| {
      ItemMeaning(items[i], formatJid);
    }
    if verdict.Forward? {
      assert body["number" := body["number"]] == body;
    } else if items != [] {
      forall i | 0 <= i < verdict.error.i
        ensures forall why :: !RefusedAs(items[i], formatJid, why)
      {
        assert items[..verdict.error.i][i] == items[i];
      }
    }
  }

  /**
   The lenient list: non-empty texts become their JIDs, every other entry stays as it came, and the
   first text that is no number is reported.
   */
  lemma {:induction false} LenientList(name: string, items: seq<Json>, verdict: Verdict, out: seq<Json>)
    requires ItemsValidated(name, items, NumberIfText, verdict, out)
    ensures match verdict
      case Forward(modified) =>
        && |out| == |items| && (modified <==> out != items)
        && forall i :: 0 <= i < |items| ==>
             if items[i].Str? && items[i].s != "" then out[i].Str? && CreateJID(items[i].s) == Success(out[i].s)
             else out[i] == items[i]
      case Reject(error) =>
        && error.BadItem? && error.name == name && error.i < |items|
        && items[error.i].Str? && items[error.i].s != ""
        && CreateJID(items[error.i].s).Failure? && error.why == Invalid(CreateJID(items[error.i].s).error)
        && forall i :: 0 <= i < error.i && items[i].Str? && items[i].s != "" ==> CreateJID(items[i].s).Success?
  {
    if verdict.Reject? {
      forall i | 0 <= i < verdict.error.i && items[i].Str? && items[i].s != ""
        ensures CreateJID(items[i].s).Success?
      {
        assert items[..verdict.error.i][i] == items[i];
      }
    }
  }

  /** With formatting switched off, an accepted body is forwarded unchanged. */
  lemma RawForwardsUnchanged(body: Body, verdict: Verdict, forwarded: Body)
    requires Validated(body, TextNeeded, verdict, forwarded) && verdict.Forward?
    ensures forwarded == body && !verdict.modified
  {
  }

  /** Passing through the middleware a second time accepts the body and changes nothing. */
  lemma {:induction false} SecondPassChangesNothing(body: Body, verdict: Verdict, forwarded: Body)
    requires Validated(body, NumberNeeded, verdict, forwarded) && verdict.Forward?
    ensures Validated(forwarded, NumberNeeded, Forward(false), forwarded)
  {
    if "number" in body {
      var v := body["number"];
      var n := Normalized(v, NumberNeeded);
      assert forwarded["number"] == n;
      if v.Arr? {
        forall i | 0 <= i < |n.items|
          ensures Item(NumberNeeded, n.items[i]) == Success(n.items[i])
        {
          assert Item(NumberNeeded, v.items[i]).Success?;
          ItemIsFixed(v.items[i]);
        }
        assert Mapped(n.items, NumberNeeded) == n.items;
      } else {
        ItemIsFixed(v);
      }
      assert forwarded["number" := n] == forwarded;
    }
  }
}
