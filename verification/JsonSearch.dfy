/** `GetObject`: the search for a key through nested JSON objects (pkg/utils/utils.go). */
module JsonSearch {
  import opened JsonValue
  import opened MapOrder

  // ----- the search, as a relation over iteration orders -----

  /** Some choice of iteration orders makes the search in `message` return `r`. */
  ghost predicate Outcome(message: Json, keyFind: string, r: string)
    decreases message, 1
  {
    if !message.Obj? then r == ""
    else exists order :: IsOrder(order, message.fields.Keys) && Walk(message, order, keyFind, r)
  }

  /** The loop over the entries of one object, with the keys still to visit. */
  ghost predicate Walk(message: Json, keys: seq<string>, keyFind: string, r: string)
    requires message.Obj?
    decreases message, 0, |keys|
  {
    if keys == [] then r == ""
    else if keys[0] !in message.fields then false
    else
      var value := message.fields[keys[0]];
      if keys[0] == keyFind && value.Str? then r == value.s
      else if !value.Obj? then Walk(message, keys[1..], keyFind, r)
      else
        || (r != "" && Outcome(value, keyFind, r))
        || (Outcome(value, keyFind, "") && Walk(message, keys[1..], keyFind, r))
  }

  method GetObject(message: Json, keyFind: string) returns (r: string)
    ensures Outcome(message, keyFind, r)
    decreases message
  {
    if !message.Obj? {
      return "";
    }
    var order := AnyOrder(message.fields.Keys);
    for i := 0 to |order|
      invariant forall q :: Walk(message, order[i..], keyFind, q) ==> Walk(message, order, keyFind, q)
    {
      var key := order[i];
      var value := message.fields[key];
      assert order[i..][1..] == order[i + 1..];
      if key == keyFind {
        if value.Str? {
          return value.s;
        }
      }
      if value.Obj? {
        var caption := GetObject(value, keyFind);
        if caption != "" {
          return caption;
        }
      }
    }
    return "";
  }

  // ----- what can come out -----

  /** Following `path` through nested objects reaches one that binds `key` to the string `s`. */
  ghost predicate BoundAt(j: Json, path: seq<string>, key: string, s: string)
    decreases |path|
  {
    && j.Obj?
    && if path == [] then key in j.fields && j.fields[key] == Str(s)
       else path[0] in j.fields && BoundAt(j.fields[path[0]], path[1..], key, s)
  }

  ghost predicate Binds(j: Json, key: string, s: string) {
    exists path :: BoundAt(j, path, key, s)
  }

  /**
   A level can yield nothing if it binds the key to "" (that binding ends the level), or if it binds
   the key to no string and none of its nested objects has to yield something.
   */
  ghost predicate MayMiss(j: Json, key: string) {
    j.Obj? ==>
      || (key in j.fields && j.fields[key] == Str(""))
      || ((key in j.fields ==> !j.fields[key].Str?)
          && forall k | k in j.fields :: MayMiss(j.fields[k], key))
  }

  lemma {:induction false} WalkIsSound(j: Json, keys: seq<string>, key: string, r: string)
    requires j.Obj? && Walk(j, keys, key, r)
    ensures r != "" ==> Binds(j, key, r)
    ensures r == "" && (forall k | k in j.fields :: k in keys) ==> MayMiss(j, key)
    ensures r == "" ==>
      || (key in j.fields && j.fields[key] == Str(""))
      || forall k | k in keys :: k in j.fields && (k == key ==> !j.fields[k].Str?) && MayMiss(j.fields[k], key)
    decreases j, 0, |keys|
  {
    if keys != [] {
      var value := j.fields[keys[0]];
      if keys[0] == key && value.Str? {
        assert BoundAt(j, [], key, value.s);
      } else if value.Obj? && r != "" && Outcome(value, key, r) {
        OutcomeIsSound(value, key, r);
        var path :| BoundAt(value, path, key, r);
        assert ([keys[0]] + path)[1..] == path;
        assert BoundAt(j, [keys[0]] + path, key, r);
      } else {
        if value.Obj? {
          OutcomeIsSound(value, key, "");
        }
        WalkIsSound(j, keys[1..], key, r);
        assert keys == [keys[0]] + keys[1..];
      }
    }
  }

  lemma {:induction false} OutcomeIsSound(j: Json, key: string, r: string)
    requires Outcome(j, key, r)
    ensures if r == "" then MayMiss(j, key) else Binds(j, key, r)
    decreases j, 1
  {
    if j.Obj? {
      var order :| IsOrder(order, j.fields.Keys) && Walk(j, order, key, r);
      WalkIsSound(j, order, key, r);
    }
  }

  lemma {:induction false} BindingCanBeFound(j: Json, path: seq<string>, key: string, r: string)
    requires r != "" && BoundAt(j, path, key, r)
    ensures Outcome(j, key, r)
    decreases |path|
  {
    var first := if path == [] then key else path[0];
    var order := OrderStartingWith(j.fields.Keys, first);
    if path != [] {
      BindingCanBeFound(j.fields[first], path[1..], key, r);
    }
    assert Walk(j, order, key, r);
  }

  lemma {:induction false} MissCanHappen(j: Json, key: string)
    requires MayMiss(j, key)
    ensures Outcome(j, key, "")
    decreases j, 1
  {
    if j.Obj? {
      if key in j.fields && j.fields[key] == Str("") {
        var order := OrderStartingWith(j.fields.Keys, key);
        assert Walk(j, order, key, "");
      } else {
        var order := SomeOrder(j.fields.Keys);
        WalkCanMiss(j, order, key);
      }
    }
  }

  lemma {:induction false} WalkCanMiss(j: Json, keys: seq<string>, key: string)
    requires j.Obj? && (key in j.fields ==> !j.fields[key].Str?)
    requires forall k | k in j.fields :: MayMiss(j.fields[k], key)
    requires forall k | k in keys :: k in j.fields
    ensures Walk(j, keys, key, "")
    decreases j, 0, |keys|
  {
    if keys != [] {
      assert keys[0] in keys;
      MissCanHappen(j.fields[keys[0]], key);
      assert forall k | k in keys[1..] :: k in keys;
      WalkCanMiss(j, keys[1..], key);
    }
  }

  /**
   Exactly what `GetObject` can return, over all iteration orders: each non-empty string that some
   object reachable through objects alone binds to the key, and "" exactly when `MayMiss`.
   */
  lemma {:induction false} Outcomes(message: Json, keyFind: string, r: string)
    ensures Outcome(message, keyFind, r) <==> if r == "" then MayMiss(message, keyFind) else Binds(message, keyFind, r)
  {
    if Outcome(message, keyFind, r) {
      OutcomeIsSound(message, keyFind, r);
    }
    if r == "" && MayMiss(message, keyFind) {
      MissCanHappen(message, keyFind);
    }
    if r != "" && Binds(message, keyFind, r) {
      var path :| BoundAt(message, path, keyFind, r);
      BindingCanBeFound(message, path, keyFind, r);
    }
  }

  lemma {:induction false} MissNeedsEmptyBinding(j: Json, path: seq<string>, key: string, s: string)
    requires MayMiss(j, key) && BoundAt(j, path, key, s)
    ensures Binds(j, key, "")
    decreases |path|
  {
    if key in j.fields && j.fields[key] == Str("") {
      assert BoundAt(j, [], key, "");
    } else {
      MissNeedsEmptyBinding(j.fields[path[0]], path[1..], key, s);
      var deeper :| BoundAt(j.fields[path[0]], deeper, key, "");
      assert ([path[0]] + deeper)[1..] == deeper;
      assert BoundAt(j, [path[0]] + deeper, key, "");
    }
  }

  /** Unless some reachable object binds the key to "", a binding is never missed, in any order. */
  lemma {:induction false} NoEmptyBindingNoMiss(message: Json, keyFind: string, r: string)
    requires !Binds(message, keyFind, "") && Outcome(message, keyFind, r)
    ensures r == "" <==> !exists s :: Binds(message, keyFind, s)
    ensures r != "" ==> Binds(message, keyFind, r)
  {
    Outcomes(message, keyFind, r);
    if r == "" && exists s :: Binds(message, keyFind, s) {
      var s :| Binds(message, keyFind, s);
      var path :| BoundAt(message, path, keyFind, s);
      MissNeedsEmptyBinding(message, path, keyFind, s);
    }
  }

  /** On the way along `path`, or at its end, some object binds the key to "". */
  ghost predicate Hidden(j: Json, path: seq<string>, key: string) {
    exists n :: 0 <= n <= |path| && BoundAt(j, path[..n], key, "")
  }

  lemma {:induction false} HiddenBelow(j: Json, k: string, path: seq<string>, key: string)
    requires j.Obj? && k in j.fields
    ensures Hidden(j, [k] + path, key)
      <==> (key in j.fields && j.fields[key] == Str("")) || Hidden(j.fields[k], path, key)
  {
    var long := [k] + path;
    assert long[..0] == [] && path == long[1..];
    if Hidden(j, long, key) {
      var n :| 0 <= n <= |long| && BoundAt(j, long[..n], key, "");
      if n > 0 {
        assert long[..n][1..] == path[..n - 1];
      }
    }
    if Hidden(j.fields[k], path, key) {
      var n :| 0 <= n <= |path| && BoundAt(j.fields[k], path[..n], key, "");
      assert long[..n + 1][1..] == path[..n];
      assert BoundAt(j, long[..n + 1], key, "");
    }
    if key in j.fields && j.fields[key] == Str("") {
      assert BoundAt(j, long[..0], key, "");
    }
  }

  lemma {:induction false} MissHides(j: Json, path: seq<string>, key: string, s: string)
    requires MayMiss(j, key) && s != "" && BoundAt(j, path, key, s)
    ensures Hidden(j, path, key)
    decreases |path|
  {
    if path != [] {
      assert path == [path[0]] + path[1..];
      HiddenBelow(j, path[0], path[1..], key);
      if !(key in j.fields && j.fields[key] == Str("")) {
        MissHides(j.fields[path[0]], path[1..], key, s);
      }
    }
  }

  ghost predicate AllHidden(j: Json, key: string) {
    forall path, s :: s != "" && BoundAt(j, path, key, s) ==> Hidden(j, path, key)
  }

  lemma {:induction false} HiddenMisses(j: Json, key: string)
    requires AllHidden(j, key)
    ensures MayMiss(j, key)
  {
    if j.Obj? && !(key in j.fields && j.fields[key] == Str("")) {
      if key in j.fields && j.fields[key].Str? {
        assert BoundAt(j, [], key, j.fields[key].s);
      }
      forall k | k in j.fields
        ensures MayMiss(j.fields[k], key)
      {
        forall path, s | s != "" && BoundAt(j.fields[k], path, key, s)
          ensures Hidden(j.fields[k], path, key)
        {
          assert ([k] + path)[1..] == path;
          assert BoundAt(j, [k] + path, key, s);
          HiddenBelow(j, k, path, key);
        }
        HiddenMisses(j.fields[k], key);
      }
    }
  }

  /**
   When `GetObject` can come back empty-handed, without reference to orders: iff every path to a
   non-empty binding passes an object that binds the key to "".
   */
  lemma {:induction false} MissIffAllHidden(message: Json, keyFind: string)
    ensures Outcome(message, keyFind, "") <==> AllHidden(message, keyFind)
  {
    Outcomes(message, keyFind, "");
    if MayMiss(message, keyFind) {
      forall path, s | s != "" && BoundAt(message, path, keyFind, s)
        ensures Hidden(message, path, keyFind)
      {
        MissHides(message, path, keyFind, s);
      }
    }
    if AllHidden(message, keyFind) {
      HiddenMisses(message, keyFind);
    }
  }

  /** One empty binding is enough to hide another: here both answers are possible. */
  lemma {:induction false} EmptyBindingHides()
    ensures var j := Obj(map["text" := Str(""), "inner" := Obj(map["text" := Str("hi")])]);
      Outcome(j, "text", "") && Outcome(j, "text", "hi")
  {
    var inner := Obj(map["text" := Str("hi")]);
    var j := Obj(map["text" := Str(""), "inner" := inner]);
    assert BoundAt(inner, [], "text", "hi");
    assert ["inner"][1..] == [];
    assert BoundAt(j, ["inner"], "text", "hi");
    Outcomes(j, "text", "");
    Outcomes(j, "text", "hi");
  }
}
