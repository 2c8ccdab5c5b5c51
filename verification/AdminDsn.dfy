/** The key=value half of `extractDBNameAndAdminDSN` (pkg/config/config.go). */
module AdminDsn {
  import opened Wrappers
  import opened MapOrder

  datatype DsnError = NoDbName

  datatype AdminDsn = AdminDsn(dbName: string, dsn: string)

  // ----- strings.Fields, strings.SplitN, strings.Join -----

  /** `unicode.IsSpace`; here a `char` is a rune. */
  predicate IsSpace(c: char) {
    || '\t' <= c <= '\r' || c == ' ' || c == '\U{85}' || c == '\U{A0}' || c == '\U{1680}'
    || '\U{2000}' <= c <= '\U{200A}' || c == '\U{2028}' || c == '\U{2029}' || c == '\U{202F}'
    || c == '\U{205F}' || c == '\U{3000}'
  }

  function Word(s: string): (w: string)
    ensures w <= s && IsWordText(w)
    ensures w != s ==> IsSpace(s[|w|])
  {
    if s == "" || IsSpace(s[0]) then "" else [s[0]] + Word(s[1..])
  }

  predicate IsWordText(w: string) {
    forall i :: 0 <= i < |w| ==> !IsSpace(w[i])
  }

  /** `strings.Fields`. */
  function Fields(s: string): (words: seq<string>)
    ensures forall i :: 0 <= i < |words| ==> words[i] != "" && IsWordText(words[i])
    decreases |s|
  {
    if s == "" then []
    else if IsSpace(s[0]) then Fields(s[1..])
    else [Word(s)] + Fields(s[|Word(s)|..])
  }

  function BeforeEquals(p: string): (k: string)
    ensures k <= p && '=' !in k
    ensures k != p ==> p[|k|] == '='
  {
    if p == "" || p[0] == '=' then "" else [p[0]] + BeforeEquals(p[1..])
  }

  /** `strings.SplitN(p, "=", 2)` when it has two parts. */
  function KeyValue(p: string): (kv: Option<(string, string)>)
    ensures kv.Some? <==> '=' in p
    ensures kv.Some? ==> p == kv.value.0 + "=" + kv.value.1 && '=' !in kv.value.0
  {
    var k := BeforeEquals(p);
    if k == p then None else Some((k, p[|k| + 1..]))
  }

  /** `strings.Join(words, " ")`. */
  function Join(words: seq<string>): string {
    if words == [] then ""
    else if |words| == 1 then words[0]
    else words[0] + " " + Join(words[1..])
  }

  // ----- the two loops -----

  function Put(kvMap: map<string, string>, part: string): map<string, string> {
    match KeyValue(part)
    case None => kvMap
    case Some((k, v)) => kvMap[k := v]
  }

  /** The map after the first loop: the last part with a key wins. */
  function Table(parts: seq<string>): map<string, string> {
    if parts == [] then map[] else Put(Table(parts[..|parts| - 1]), parts[|parts| - 1])
  }

  function Part(kvMap: map<string, string>, k: string): string
    requires k in kvMap
  {
    k + "=" + kvMap[k]
  }

  ghost predicate Lists(adminParts: seq<string>, kvMap: map<string, string>, order: seq<string>) {
    && |adminParts| == |order|
    && forall i :: 0 <= i < |order| ==> order[i] in kvMap && adminParts[i] == Part(kvMap, order[i])
  }

  predicate IsUrl(dsn: string) {
    "postgres://" <= dsn || "postgresql://" <= dsn
  }

  /** The two schemes. */
  lemma {:induction false} UrlSchemes(dsn: string)
    ensures IsUrl(dsn) <==> exists rest :: dsn == "postgres://" + rest || dsn == "postgresql://" + rest
  {
    if "postgres://" <= dsn {
      assert dsn == "postgres://" + dsn[|"postgres://"|..];
    } else if "postgresql://" <= dsn {
      assert dsn == "postgresql://" + dsn[|"postgresql://"|..];
    }
  }

  /** `dsn` prints `kvMap`, in some iteration order. */
  ghost predicate Prints(dsn: string, kvMap: map<string, string>) {
    exists order, adminParts :: IsOrder(order, kvMap.Keys) && Lists(adminParts, kvMap, order) && dsn == Join(adminParts)
  }

  method ExtractDBNameAndAdminDSN(dsn: string) returns (r: Result<AdminDsn, DsnError>)
    requires !IsUrl(dsn)
    ensures var t := Table(Fields(dsn));
      if "dbname" !in t || t["dbname"] == "" then r == Failure(NoDbName)
      else
        && r.Success?
        && r.value.dbName == t["dbname"]
        && Prints(r.value.dsn, t["dbname" := "postgres"])
  {
    var parts := Fields(dsn);
    var kvMap: map<string, string> := map[];
    for i := 0 to |parts|
      invariant kvMap == Table(parts[..i])
    {
      assert parts[..i + 1][..i] == parts[..i];
      var kv := KeyValue(parts[i]);
      if kv.Some? {
        kvMap := kvMap[kv.value.0 := kv.value.1];
      }
    }
    assert parts[..|parts|] == parts;
    if "dbname" !in kvMap || kvMap["dbname"] == "" {
      return Failure(NoDbName);
    }
    var dbName := kvMap["dbname"];
    kvMap := kvMap["dbname" := "postgres"];
    var adminParts: seq<string> := [];
    var order := AnyOrder(kvMap.Keys);
    for i := 0 to |order|
      invariant Lists(adminParts, kvMap, order[..i])
    {
      assert order[i] in order;
      adminParts := adminParts + [order[i] + "=" + kvMap[order[i]]];
    }
    assert order[..|order|] == order;
    r := Success(AdminDsn(dbName, Join(adminParts)));
  }

  // ----- what splitting and joining mean -----

  /** The space characters, by code point. */
  lemma SpaceCharacters(c: char)
    ensures var n := c as int;
      IsSpace(c) <==>
        || 9 <= n <= 13 || n == 32 || n == 0x85 || n == 0xA0 || n == 0x1680
        || 0x2000 <= n <= 0x200A || n == 0x2028 || n == 0x2029 || n == 0x202F || n == 0x205F || n == 0x3000
  {
  }

  lemma {:induction false} FieldsBeforeSpace(s: string, u: string)
    requires u != "" && IsSpace(u[0])
    ensures Fields(s + u) == Fields(s) + Fields(u)
    decreases |s|
  {
    if s == "" {
      assert s + u == u;
    } else if IsSpace(s[0]) {
      assert (s + u)[1..] == s[1..] + u;
      FieldsBeforeSpace(s[1..], u);
    } else {
      var w := Word(s);
      var rest := s[|w|..];
      FieldsBeforeSpace(rest, u);
      FieldsAfterWord(w, rest + u);
      assert s + u == w + (rest + u);
    }
  }

  /**
   Splitting at a space splits both sides, and text without a space is one word. With no words in
   empty text this fixes every split: runs of spaces, and spaces at either end, separate nothing.
   */
  lemma {:induction false} FieldsAtSpace(s: string, c: char, t: string)
    requires IsSpace(c)
    ensures Fields(s + [c] + t) == Fields(s) + Fields(t)
  {
    FieldsBeforeSpace(s, [c] + t);
    assert s + [c] + t == s + ([c] + t) && ([c] + t)[1..] == t;
  }

  lemma {:induction false} FieldsAfterWord(w: string, rest: string)
    requires w != "" && IsWordText(w) && (rest != "" ==> IsSpace(rest[0]))
    ensures Fields(w + rest) == [w] + Fields(rest)
  {
    WordOf(w, rest);
    assert (w + rest)[|w|..] == rest;
  }

  lemma {:induction false} FieldsOfWord(w: string)
    requires w != "" && IsWordText(w)
    ensures Fields(w) == [w]
  {
    assert w + "" == w;
    FieldsAfterWord(w, "");
  }

  /** Joining puts exactly one space between words. */
  lemma {:induction false} JoinMeaning(words: seq<string>, w: string)
    ensures Join(words + [w]) == if words == [] then w else Join(words) + " " + w
  {
    if words != [] {
      assert (words + [w])[1..] == words[1..] + [w];
      JoinMeaning(words[1..], w);
      if |words| > 1 {
        assert words[0] + " " + (Join(words[1..]) + " " + w) == words[0] + " " + Join(words[1..]) + " " + w;
      }
    }
  }

  // ----- splitting undoes joining -----

  lemma {:induction false} WordOf(w: string, rest: string)
    requires IsWordText(w) && (rest != "" ==> IsSpace(rest[0]))
    ensures Word(w + rest) == w
  {
    if w != "" {
      assert (w + rest)[1..] == w[1..] + rest;
      WordOf(w[1..], rest);
    }
  }

  lemma {:induction false} FieldsOfJoin(words: seq<string>)
    requires forall i :: 0 <= i < |words| ==> words[i] != "" && IsWordText(words[i])
    ensures Fields(Join(words)) == words
  {
    if words != [] {
      var w, tail := words[0], words[1..];
      var rest := if tail == [] then "" else " " + Join(tail);
      assert Join(words) == w + rest;
      WordOf(w, rest);
      assert (w + rest)[|w|..] == rest;
      FieldsOfJoin(tail);
      if tail != [] {
        assert rest[1..] == Join(tail);
      }
    }
  }

  lemma {:induction false} BeforeEqualsOf(k: string, v: string)
    requires '=' !in k
    ensures BeforeEquals(k + "=" + v) == k
  {
    if k != "" {
      assert (k + "=" + v)[1..] == k[1..] + "=" + v;
      BeforeEqualsOf(k[1..], v);
    }
  }

  lemma {:induction false} KeyValueOf(k: string, v: string)
    requires '=' !in k
    ensures KeyValue(k + "=" + v) == Some((k, v))
  {
    BeforeEqualsOf(k, v);
  }

  // ----- the table -----

  /** The last-wins reading, without a map: the last part that has the key. */
  lemma {:induction false} TableMeaning(parts: seq<string>, k: string, i: nat)
    requires i < |parts| && KeyValue(parts[i]).Some? && KeyValue(parts[i]).value.0 == k
    requires forall j :: i < j < |parts| && KeyValue(parts[j]).Some? ==> KeyValue(parts[j]).value.0 != k
    ensures k in Table(parts) && Table(parts)[k] == KeyValue(parts[i]).value.1
  {
    var n := |parts| - 1;
    if i < n {
      TableMeaning(parts[..n], k, i);
    }
  }

  /** Every key of the table is the key of some part, and keys and values are text without spaces. */
  lemma {:induction false} TableEntries(parts: seq<string>, k: string)
    requires forall i :: 0 <= i < |parts| ==> IsWordText(parts[i])
    requires k in Table(parts)
    ensures exists i :: 0 <= i < |parts| && KeyValue(parts[i]).Some? && KeyValue(parts[i]).value.0 == k
    ensures '=' !in k && IsWordText(Part(Table(parts), k))
  {
    var n := |parts| - 1;
    var kv := KeyValue(parts[n]);
    if kv.Some? && kv.value.0 == k {
      assert Part(Table(parts), k) == parts[n];
    } else {
      TableEntries(parts[..n], k);
      var i :| 0 <= i < n && KeyValue(parts[..n][i]).Some? && KeyValue(parts[..n][i]).value.0 == k;
      assert parts[..n][i] == parts[i];
    }
  }

  /** Reading back parts that list a map, each key once, gives the map. */
  lemma {:induction false} TableOfLists(adminParts: seq<string>, kvMap: map<string, string>, order: seq<string>)
    requires Lists(adminParts, kvMap, order) && NoDuplicates(order)
    requires forall k :: k in kvMap ==> '=' !in k
    ensures Table(adminParts) == map k | k in order :: kvMap[k]
  {
    if order != [] {
      var n := |order| - 1;
      KeyValueOf(order[n], kvMap[order[n]]);
      TableOfLists(adminParts[..n], kvMap, order[..n]);
      assert order == order[..n] + [order[n]];
    }
  }

  /** A map whose printed parts are single words, with keys that stop at the equals sign. */
  ghost predicate Printable(kvMap: map<string, string>) {
    forall k :: k in kvMap ==> '=' !in k && IsWordText(Part(kvMap, k))
  }

  lemma {:induction false} AdminTableIsPrintable(dsn: string)
    ensures Printable(Table(Fields(dsn))["dbname" := "postgres"])
  {
    var t := Table(Fields(dsn));
    var u := t["dbname" := "postgres"];
    forall k | k in u
      ensures '=' !in k && IsWordText(Part(u, k))
    {
      if k != "dbname" {
        TableEntries(Fields(dsn), k);
        assert Part(u, k) == Part(t, k);
      }
    }
  }

  lemma {:induction false} ReadBack(kvMap: map<string, string>, order: seq<string>, adminParts: seq<string>)
    requires Printable(kvMap) && IsOrder(order, kvMap.Keys) && Lists(adminParts, kvMap, order)
    ensures Table(Fields(Join(adminParts))) == kvMap
  {
    FieldsOfJoin(adminParts);
    TableOfLists(adminParts, kvMap, order);
  }

  /**
   The round trip: whatever order the map was printed in, reading the admin DSN back gives the
   original last-wins table with only dbname replaced.
   */
  lemma {:induction false} AdminDsnRoundTrip(dsn: string, admin: string)
    requires Prints(admin, Table(Fields(dsn))["dbname" := "postgres"])
    ensures Table(Fields(admin)) == Table(Fields(dsn))["dbname" := "postgres"]
  {
    AdminTableIsPrintable(dsn);
    var u := Table(Fields(dsn))["dbname" := "postgres"];
    var order, adminParts :| IsOrder(order, u.Keys) && Lists(adminParts, u, order) && admin == Join(adminParts);
    ReadBack(u, order, adminParts);
  }

  lemma PrefixBeforeEquals(scheme: string, k: string, dsn: string)
    requires '=' !in scheme && |k| < |dsn| && k <= dsn && dsn[|k|] == '='
    ensures scheme <= dsn <==> scheme <= k
  {
  }

  lemma {:induction false} JoinStartsWithFirstKey(kvMap: map<string, string>, order: seq<string>,
                                                  adminParts: seq<string>)
    requires order != [] && Lists(adminParts, kvMap, order) && '=' !in order[0]
    ensures IsUrl(Join(adminParts)) <==> IsUrl(order[0])
  {
    var k := order[0];
    var dsn := Join(adminParts);
    assert Part(kvMap, k) <= dsn;
    assert k <= dsn && dsn[|k|] == '=';
    PrefixBeforeEquals("postgres://", k, dsn);
    PrefixBeforeEquals("postgresql://", k, dsn);
  }

  lemma {:induction false} PartsFor(kvMap: map<string, string>, order: seq<string>) returns (adminParts: seq<string>)
    requires forall k :: k in order ==> k in kvMap
    ensures Lists(adminParts, kvMap, order)
  {
    adminParts := seq(|order|, i requires 0 <= i < |order| => assert order[i] in order; Part(kvMap, order[i]));
  }

  /**
   `extractDBNameAndAdminDSN` reads its own result back as key=value text, and then finds the same
   table, exactly when no key starts like a URL: with such a key, some iteration order prints it
   first and turns the admin DSN into a URL.
   */
  lemma {:induction false} AdminDsnMayTurnIntoUrl(dsn: string)
    ensures var u := Table(Fields(dsn))["dbname" := "postgres"];
      (exists admin :: Prints(admin, u) && IsUrl(admin)) <==> exists k :: k in u && IsUrl(k)
  {
    AdminTableIsPrintable(dsn);
    var u := Table(Fields(dsn))["dbname" := "postgres"];
    if exists admin :: Prints(admin, u) && IsUrl(admin) {
      var admin :| Prints(admin, u) && IsUrl(admin);
      var order, adminParts :| IsOrder(order, u.Keys) && Lists(adminParts, u, order) && admin == Join(adminParts);
      assert "dbname" in u.Keys;
      assert order[0] in order;
      JoinStartsWithFirstKey(u, order, adminParts);
    }
    if exists k :: k in u && IsUrl(k) {
      var k :| k in u && IsUrl(k);
      var order := OrderStartingWith(u.Keys, k);
      var adminParts := PartsFor(u, order);
      JoinStartsWithFirstKey(u, order, adminParts);
      assert Prints(Join(adminParts), u);
    }
  }

  lemma {:induction false} TwoParts(a: string, b: string)
    requires KeyValue(a).Some? && KeyValue(b).Some?
    ensures Table([a, b]) == map[KeyValue(a).value.0 := KeyValue(a).value.1][KeyValue(b).value.0 := KeyValue(b).value.1]
  {
    assert [a, b][..1] == [a] && [a][..0] == [];
    assert Table([a]) == Put(map[], a);
  }

  lemma {:induction false} TwoEntries(k: string, v: string, l: string, w: string)
    requires '=' !in k && '=' !in l && IsWordText(k + "=" + v) && IsWordText(l + "=" + w)
    ensures Table(Fields(Join([k + "=" + v, l + "=" + w]))) == map[k := v][l := w]
  {
    var parts := [k + "=" + v, l + "=" + w];
    FieldsOfJoin(parts);
    KeyValueOf(k, v);
    KeyValueOf(l, w);
    TwoParts(parts[0], parts[1]);
  }

  lemma {:induction false} UrlOfTwoEntries(k: string, v: string, b: string)
    requires '=' !in k
    ensures IsUrl(Join([k + "=" + v, b])) <==> IsUrl(k)
  {
    var dsn := Join([k + "=" + v, b]);
    assert k <= dsn && dsn[|k|] == '=';
    PrefixBeforeEquals("postgres://", k, dsn);
    PrefixBeforeEquals("postgresql://", k, dsn);
  }

  /** A key=value DSN with such a key. */
  lemma {:induction false} UrlKeyExample()
    ensures var dsn := Join(["dbname" + "=" + "d", "postgres://" + "=" + "x"]);
      && !IsUrl(dsn)
      && exists admin :: Prints(admin, Table(Fields(dsn))["dbname" := "postgres"]) && IsUrl(admin)
  {
    TwoEntries("dbname", "d", "postgres://", "x");
    UrlOfTwoEntries("dbname", "d", "postgres://" + "=" + "x");
    var dsn := Join(["dbname" + "=" + "d", "postgres://" + "=" + "x"]);
    assert IsUrl("postgres://") && "postgres://" in Table(Fields(dsn));
    AdminDsnMayTurnIntoUrl(dsn);
  }
}
