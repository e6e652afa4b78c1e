/** Migration definitions, their `service:version` keys, the order they are applied in, and the registry. */
module MigrationOrder {
  import opened Wrappers
  import Decimal

  datatype Migration = Migration(service: string, version: int, description: string, up: string, down: string)

  /** A row of `core.migrations`. */
  datatype RowKey = RowKey(service: string, version: int)

  /** A blank service stands for "core". */
  function KeyOf(m: Migration): (key: RowKey)
  {
    RowKey(if m.service == "" then "core" else m.service, m.version)
  }

  function Text(key: RowKey): (text: string)
  {
    key.service + ":" + Decimal.Format(key.version)
  }

  /** The printed key determines service and version, whatever colons the service name holds. */
  lemma TextIsInjective(a: RowKey, b: RowKey)
    requires Text(a) == Text(b)
    ensures a == b
  {
    var text, aDigits, bDigits := Text(a), Decimal.Format(a.version), Decimal.Format(b.version);
    LastColon(a.service, aDigits, b.service, bDigits);
    assert text[|a.service| + 1..] == aDigits && text[|b.service| + 1..] == bDigits;
    assert text[..|a.service|] == a.service && text[..|b.service|] == b.service;
    Decimal.ParseFormat(a.version);
    Decimal.ParseFormat(b.version);
  }

  lemma LastColon(a: string, aDigits: string, b: string, bDigits: string)
    requires a + ":" + aDigits == b + ":" + bDigits
    requires ':' !in aDigits && ':' !in bDigits
    ensures |a| == |b|
  {
    var text := a + ":" + aDigits;
    assert text[|a|] == ':' && text[|b|] == ':';
    assert text[|a| + 1..] == aDigits && text[|b| + 1..] == bDigits;
    forall k | |a| < k < |text|
      ensures text[k] != ':'
    {
      assert text[k] == aDigits[k - |a| - 1];
    }
    forall k | |b| < k < |text|
      ensures text[k] != ':'
    {
      assert text[k] == bDigits[k - |b| - 1];
    }
  }

  /* ---------- The order ---------- */

  /** Strings compared character by character, a proper prefix first. */
  predicate Less(a: string, b: string)
  {
    if b == "" then false
    else if a == "" then true
    else if a[0] != b[0] then a[0] < b[0]
    else Less(a[1..], b[1..])
  }

  lemma {:induction false} LessIsTotal(a: string, b: string)
    ensures !(Less(a, b) && Less(b, a))
    ensures Less(a, b) || Less(b, a) <==> a != b
  {
    if a != "" && b != "" {
      if a[0] == b[0] {
        LessIsTotal(a[1..], b[1..]);
        assert a == [a[0]] + a[1..] && b == [b[0]] + b[1..];
      }
    }
  }

  lemma {:induction false} LessIsTransitive(a: string, b: string, c: string)
    requires Less(a, b) && Less(b, c)
    ensures Less(a, c)
  {
    if a != "" && a[0] == b[0] == c[0] {
      LessIsTransitive(a[1..], b[1..], c[1..]);
    }
  }

  /** "core" first, then services in order, then versions upward. */
  predicate Before(a: RowKey, b: RowKey)
  {
    if a.service != b.service then
      if a.service == "core" then true
      else if b.service == "core" then false
      else Less(a.service, b.service)
    else a.version < b.version
  }

  lemma BeforeIsTotal(a: RowKey, b: RowKey)
    ensures !(Before(a, b) && Before(b, a))
    ensures Before(a, b) || Before(b, a) <==> a != b
  {
    LessIsTotal(a.service, b.service);
  }

  lemma BeforeIsTransitive(a: RowKey, b: RowKey, c: RowKey)
    requires !Before(b, a) && !Before(c, b)
    ensures !Before(c, a)
  {
    BeforeIsTotal(a, b);
    BeforeIsTotal(b, c);
    BeforeIsTotal(a, c);
    if Less(a.service, b.service) && Less(b.service, c.service) {
      LessIsTransitive(a.service, b.service, c.service);
    }
  }

  predicate Ordered(s: seq<Migration>)
  {
    forall i, j | 0 <= i < j < |s| :: !Before(KeyOf(s[j]), KeyOf(s[i]))
  }

  /** What the library sort promises: an ordered permutation. */
  predicate IsSortOf(s: seq<Migration>, migrations: seq<Migration>)
  {
    Ordered(s) && multiset(s) == multiset(migrations)
  }

  function Insert(m: Migration, s: seq<Migration>): (r: seq<Migration>)
  {
    if s == [] then [m]
    else if Before(KeyOf(s[0]), KeyOf(m)) then [s[0]] + Insert(m, s[1..])
    else [m] + s
  }

  function Sort(migrations: seq<Migration>): (r: seq<Migration>)
  {
    if migrations == [] then [] else Insert(migrations[0], Sort(migrations[1..]))
  }

  lemma {:induction false} InsertKeepsElements(m: Migration, s: seq<Migration>)
    ensures multiset(Insert(m, s)) == multiset{m} + multiset(s)
  {
    if s != [] {
      assert s == [s[0]] + s[1..];
      InsertKeepsElements(m, s[1..]);
    }
  }

  predicate NoneBefore(s: seq<Migration>, key: RowKey)
  {
    forall x | x in s :: !Before(KeyOf(x), key)
  }

  lemma OrderedCons(m: Migration, s: seq<Migration>)
    requires Ordered(s) && NoneBefore(s, KeyOf(m))
    ensures Ordered([m] + s)
  {
    var r := [m] + s;
    forall i, j | 0 <= i < j < |r|
      ensures !Before(KeyOf(r[j]), KeyOf(r[i]))
    {
      assert r[j] in s;
    }
  }

  lemma {:induction false} InsertKeepsOrder(m: Migration, s: seq<Migration>)
    requires Ordered(s)
    ensures Ordered(Insert(m, s))
  {
    if s == [] {
    } else if Before(KeyOf(s[0]), KeyOf(m)) {
      InsertKeepsOrder(m, s[1..]);
      InsertKeepsElements(m, s[1..]);
      forall x | x in Insert(m, s[1..])
        ensures !Before(KeyOf(x), KeyOf(s[0]))
      {
        assert x in multiset(Insert(m, s[1..]));
        BeforeIsTotal(KeyOf(s[0]), KeyOf(m));
      }
      OrderedCons(s[0], Insert(m, s[1..]));
    } else {
      forall x | x in s
        ensures !Before(KeyOf(x), KeyOf(m))
      {
        var i :| 0 <= i < |s| && s[i] == x;
        if i > 0 {
          BeforeIsTransitive(KeyOf(m), KeyOf(s[0]), KeyOf(x));
        }
      }
      OrderedCons(m, s);
    }
  }

  lemma {:induction false} SortIsSort(migrations: seq<Migration>)
    ensures IsSortOf(Sort(migrations), migrations)
  {
    if migrations != [] {
      SortIsSort(migrations[1..]);
      InsertKeepsOrder(migrations[0], Sort(migrations[1..]));
      InsertKeepsElements(migrations[0], Sort(migrations[1..]));
      assert migrations == [migrations[0]] + migrations[1..];
    }
  }

  /* ---------- One order only ---------- */

  predicate Distinct(migrations: seq<Migration>)
  {
    forall i, j | 0 <= i < j < |migrations| :: KeyOf(migrations[i]) != KeyOf(migrations[j])
  }

  function Keys(migrations: seq<Migration>): (keys: seq<RowKey>)
  {
    seq(|migrations|, i requires 0 <= i < |migrations| => KeyOf(migrations[i]))
  }

  /** `rows` lists the members of `members`, each once, in the order `before`. */
  ghost predicate IsListing(rows: seq<RowKey>, members: set<RowKey>, before: (RowKey, RowKey) -> bool)
  {
    && (forall i, j | 0 <= i < j < |rows| :: before(rows[i], rows[j]))
    && (forall row :: row in rows <==> row in members)
  }

  ghost predicate IsAsymmetric(before: (RowKey, RowKey) -> bool)
  {
    forall a, b :: !(before(a, b) && before(b, a))
  }

  lemma {:induction false} ListingIsUnique(s: seq<RowKey>, t: seq<RowKey>, members: set<RowKey>, before: (RowKey, RowKey) -> bool)
    requires IsAsymmetric(before) && IsListing(s, members, before) && IsListing(t, members, before)
    ensures s == t
    decreases |s|
  {
    assert s != [] ==> s[0] in s && s[0] in t;
    assert t != [] ==> t[0] in t && t[0] in s;
    if s != [] {
      var head := s[0];
      HeadIsFirst(s, t[0], members, before);
      HeadIsFirst(t, head, members, before);
      ListingTail(s, members, before);
      ListingTail(t, members, before);
      ListingIsUnique(s[1..], t[1..], members - {head}, before);
      assert s == [head] + s[1..] && t == [head] + t[1..];
    }
  }

  lemma HeadIsFirst(s: seq<RowKey>, row: RowKey, members: set<RowKey>, before: (RowKey, RowKey) -> bool)
    requires IsListing(s, members, before) && row in s
    ensures row == s[0] || before(s[0], row)
  {
    var i :| 0 <= i < |s| && s[i] == row;
    if i > 0 {
      assert before(s[0], s[i]);
    }
  }

  lemma ListingTail(s: seq<RowKey>, members: set<RowKey>, before: (RowKey, RowKey) -> bool)
    requires s != [] && IsAsymmetric(before) && IsListing(s, members, before)
    ensures IsListing(s[1..], members - {s[0]}, before)
  {
    var tail := s[1..];
    forall row
      ensures row in tail <==> row in members - {s[0]}
    {
      assert s == [s[0]] + tail;
      if row in tail {
        var i :| 0 <= i < |tail| && tail[i] == row;
        assert before(s[0], s[i + 1]);
      }
    }
  }

  lemma OccursOnce(migrations: seq<Migration>, k: nat)
    requires Distinct(migrations) && k < |migrations|
    ensures multiset(migrations)[migrations[k]] == 1
  {
    var m, front, back := migrations[k], migrations[..k], migrations[k + 1..];
    assert migrations == front + [m] + back;
    assert m !in front && m !in back;
    assert multiset(migrations) == multiset(front) + multiset{m} + multiset(back);
  }

  lemma OccursTwice(s: seq<Migration>, i: nat, j: nat)
    requires i < j < |s| && s[i] == s[j]
    ensures multiset(s)[s[i]] >= 2
  {
    assert s == s[..i] + [s[i]] + s[i + 1..j] + [s[j]] + s[j + 1..];
    assert multiset(s) == multiset(s[..i]) + multiset{s[i]} + multiset(s[i + 1..j]) + multiset{s[j]} + multiset(s[j + 1..]);
  }

  lemma SameKeySameMigration(migrations: seq<Migration>, a: Migration, b: Migration)
    requires Distinct(migrations) && a in migrations && b in migrations && KeyOf(a) == KeyOf(b)
    ensures a == b
  {
  }

  lemma SortKeepsDistinct(s: seq<Migration>, migrations: seq<Migration>)
    requires Distinct(migrations) && IsSortOf(s, migrations)
    ensures Distinct(s)
  {
    forall i, j | 0 <= i < j < |s|
      ensures KeyOf(s[i]) != KeyOf(s[j])
    {
      if KeyOf(s[i]) == KeyOf(s[j]) {
        assert s[i] in multiset(s) && s[j] in multiset(s);
        SameKeySameMigration(migrations, s[i], s[j]);
        var k :| 0 <= k < |migrations| && migrations[k] == s[i];
        OccursOnce(migrations, k);
        OccursTwice(s, i, j);
      }
    }
  }

  /** An ordered list of distinct migrations lists its keys. */
  lemma SortedKeysAreListing(s: seq<Migration>)
    requires Distinct(s) && Ordered(s)
    ensures IsListing(Keys(s), set m | m in s :: KeyOf(m), Before)
  {
    var keys := Keys(s);
    forall i, j | 0 <= i < j < |keys|
      ensures Before(keys[i], keys[j])
    {
      BeforeIsTotal(keys[i], keys[j]);
    }
    forall row
      ensures row in keys <==> row in (set m | m in s :: KeyOf(m))
    {
      if row in (set m | m in s :: KeyOf(m)) {
        var m :| m in s && KeyOf(m) == row;
        var i :| 0 <= i < |s| && s[i] == m;
        assert keys[i] == row;
      }
    }
  }

  /** Distinct keys leave a sort no choice. */
  lemma SortIsUnique(migrations: seq<Migration>, s: seq<Migration>, t: seq<Migration>)
    requires Distinct(migrations) && IsSortOf(s, migrations) && IsSortOf(t, migrations)
    ensures s == t
  {
    SortKeepsDistinct(s, migrations);
    SortKeepsDistinct(t, migrations);
    SortedKeysAreListing(s);
    SortedKeysAreListing(t);
    SameKeySet(s, t);
    forall a, b
      ensures !(Before(a, b) && Before(b, a))
    {
      BeforeIsTotal(a, b);
    }
    ListingIsUnique(Keys(s), Keys(t), set m | m in s :: KeyOf(m), Before);
    forall i | 0 <= i < |s|
      ensures s[i] == t[i]
    {
      assert Keys(s)[i] == Keys(t)[i];
      assert s[i] in multiset(s) && t[i] in multiset(t);
      SameKeySameMigration(migrations, s[i], t[i]);
    }
  }

  lemma SameKeySet(s: seq<Migration>, t: seq<Migration>)
    requires multiset(s) == multiset(t)
    ensures (set m | m in s :: KeyOf(m)) == (set m | m in t :: KeyOf(m))
  {
    forall m
      ensures m in s <==> m in t
    {
      assert m in s <==> m in multiset(s);
    }
  }

  /* ---------- The registry ---------- */

  class Registry {
    var registered: seq<Migration>

    constructor ()
      ensures registered == []
    {
      registered := [];
    }

    method Register(m: Migration)
      modifies this
      ensures registered == old(registered) + [if m.service == "" then m.(service := "core") else m]
      ensures NoneBlank(old(registered)) ==> NoneBlank(registered)
    {
      var named := m;
      if named.service == "" {
        named := named.(service := "core");
      }
      registered := registered + [named];
    }

    /** The first definition of each key among the system's and the registered ones, in order. */
    method GetRegistered(system: seq<Migration>) returns (result: seq<Migration>)
      requires NoneBlank(system) && NoneBlank(registered)
      ensures Distinct(result) && IsSortOf(result, FirstOfEach(system + registered))
    {
      var all := system + registered;
      var first := Deduplicate(all);
      RegistryIsSorted(all);
      result := Sort(first);
    }
  }

  method Deduplicate(all: seq<Migration>) returns (first: seq<Migration>)
    requires NoneBlank(all)
    ensures first == FirstOfEach(all)
  {
    var seen := {};
    first := [];
    for i := 0 to |all|
      invariant first == FirstOfEach(all[..i])
      invariant seen == Texts(all[..i])
    {
      RawText(all, i);
      FirstOfNext(all, i);
      var key := Text(RowKey(all[i].service, all[i].version));
      if key !in seen {
        seen := seen + {key};
        first := first + [all[i]];
      }
    }
    assert all[..|all|] == all;
  }

  function Texts(migrations: seq<Migration>): (texts: set<string>)
  {
    set m | m in migrations :: Text(KeyOf(m))
  }

  lemma RawText(all: seq<Migration>, i: nat)
    requires NoneBlank(all) && i < |all|
    ensures RowKey(all[i].service, all[i].version) == KeyOf(all[i])
  {
    assert all[i] in all;
  }

  /** How the loop over the definitions moves on by one. */
  lemma FirstOfNext(all: seq<Migration>, i: nat)
    requires i < |all|
    ensures Texts(all[..i + 1]) == Texts(all[..i]) + {Text(KeyOf(all[i]))}
    ensures FirstOfEach(all[..i + 1]) == FirstOfEach(all[..i]) + if Text(KeyOf(all[i])) in Texts(all[..i]) then [] else [all[i]]
  {
    assert all[..i + 1][..i] == all[..i];
    assert all[..i + 1] == all[..i] + [all[i]];
    SeenExactly(all[..i], all[i]);
  }

  lemma RegistryIsSorted(all: seq<Migration>)
    ensures Distinct(Sort(FirstOfEach(all))) && IsSortOf(Sort(FirstOfEach(all)), FirstOfEach(all))
  {
    FirstOfEachIsDistinct(all);
    SortIsSort(FirstOfEach(all));
    SortKeepsDistinct(Sort(FirstOfEach(all)), FirstOfEach(all));
  }

  predicate NoneBlank(migrations: seq<Migration>)
  {
    forall m | m in migrations :: m.service != ""
  }

  predicate Defines(migrations: seq<Migration>, key: RowKey)
  {
    exists m | m in migrations :: KeyOf(m) == key
  }

  function FirstOfEach(migrations: seq<Migration>): (r: seq<Migration>)
  {
    if migrations == [] then []
    else
      var rest, last := migrations[..|migrations| - 1], migrations[|migrations| - 1];
      FirstOfEach(rest) + if Defines(rest, KeyOf(last)) then [] else [last]
  }

  lemma SeenExactly(before: seq<Migration>, m: Migration)
    ensures Text(KeyOf(m)) in Texts(before) <==> Defines(before, KeyOf(m))
  {
    if Text(KeyOf(m)) in Texts(before) {
      var x :| x in before && Text(KeyOf(x)) == Text(KeyOf(m));
      TextIsInjective(KeyOf(x), KeyOf(m));
    }
  }

  predicate IsFirstAt(migrations: seq<Migration>, m: Migration, i: int)
  {
    0 <= i < |migrations| && migrations[i] == m && !Defines(migrations[..i], KeyOf(m))
  }

  /** What deduplication keeps is the first definition of its key. */
  lemma {:induction false} FirstOfEachIsFirst(migrations: seq<Migration>, m: Migration)
    requires m in FirstOfEach(migrations)
    ensures exists i :: IsFirstAt(migrations, m, i)
  {
    var n := |migrations| - 1;
    var rest := migrations[..n];
    if m in FirstOfEach(rest) {
      FirstOfEachIsFirst(rest, m);
      var i :| IsFirstAt(rest, m, i);
      assert rest[..i] == migrations[..i];
      assert IsFirstAt(migrations, m, i);
    } else {
      assert IsFirstAt(migrations, m, n);
    }
  }

  /** Deduplication keeps every key, once. */
  lemma {:induction false} FirstOfEachIsDistinct(migrations: seq<Migration>)
    ensures Distinct(FirstOfEach(migrations))
    ensures forall key :: Defines(FirstOfEach(migrations), key) <==> Defines(migrations, key)
  {
    if migrations != [] {
      var rest, last := migrations[..|migrations| - 1], migrations[|migrations| - 1];
      FirstOfEachIsDistinct(rest);
      var first, r := FirstOfEach(rest), FirstOfEach(migrations);
      assert migrations == rest + [last];
      forall i, j | 0 <= i < j < |r|
        ensures KeyOf(r[i]) != KeyOf(r[j])
      {
        assert r[i] in first;
        if j == |first| {
          assert !Defines(first, KeyOf(last));
        }
      }
      forall key
        ensures Defines(r, key) <==> Defines(migrations, key)
      {
        assert Defines(migrations, key) <==> Defines(rest, key) || KeyOf(last) == key;
        if Defines(rest, KeyOf(last)) {
          assert r == first;
        } else {
          assert Defines(r, key) <==> Defines(first, key) || KeyOf(last) == key;
        }
      }
    }
  }
}
