/**
  Verification of Telegram Login Widget data (the widget's "checking
  authorization" procedure): a freshness window on `auth_date`, the
  data-check-string built from the received fields, and the comparison of
  HMAC-SHA-256 (RFC 2104) of that string, keyed with SHA-256 of the bot
  token, against the received `hash`. The two hash functions are parameters.
*/
module TelegramService {
  import opened Wrappers

  /** Login data older than one day is refused. */
  const MaxAgeSeconds: int := 86400
  const Separator: char := '\n'

  /** One field of the login record as dumped: its name and its formatted value, or `None`. */
  datatype Field = Field(key: string, value: Option<string>)

  /** The login record: its typed `auth_date` and `hash`, and the dump of all its fields in declaration order. */
  datatype TelegramAuth = TelegramAuth(authDate: int, hash: string, dump: seq<Field>)

  /** A missing bot token is a server error (HTTP 500), not a failed check. */
  datatype ConfigError = BotTokenNotConfigured

  predicate Excluded(key: string) {
    key == "hash" || key == "photo_url"
  }

  predicate Included(f: Field) {
    !Excluded(f.key) && f.value.Some?
  }

  function Entry(f: Field): string
    requires f.value.Some?
  {
    f.key + "=" + f.value.value
  }

  /** `model_dump(exclude={'hash', 'photo_url'})`: the fields other than the two excluded ones. */
  function Dumped(dump: seq<Field>): seq<Field> {
    if dump == [] then []
    else if Excluded(dump[0].key) then Dumped(dump[1..])
    else [dump[0]] + Dumped(dump[1..])
  }

  /** The `k=v` entries of the fields whose value is not `None`, in field order. */
  function Entries(fields: seq<Field>): seq<string> {
    if fields == [] then []
    else if fields[0].value.None? then Entries(fields[1..])
    else [Entry(fields[0])] + Entries(fields[1..])
  }

  function CheckEntries(dump: seq<Field>): seq<string> {
    Entries(Dumped(dump))
  }

  /** Python's ordering of `str`: lexicographic by code point, a proper prefix first. */
  predicate LessEq(a: string, b: string)
    decreases |a|
  {
    a == [] || (b != [] && (a[0] < b[0] || (a[0] == b[0] && LessEq(a[1..], b[1..]))))
  }

  predicate Sorted(s: seq<string>) {
    forall i, j :: 0 <= i < j < |s| ==> LessEq(s[i], s[j])
  }

  function Insert(x: string, s: seq<string>): seq<string> {
    if s == [] then [x]
    else if LessEq(x, s[0]) then [x] + s
    else [s[0]] + Insert(x, s[1..])
  }

  /** `list.sort()` on the entries, as a function of the unsorted list. */
  function Sort(s: seq<string>): seq<string> {
    if s == [] then [] else Insert(s[0], Sort(s[1..]))
  }

  /** `sep.join(parts)`. */
  function Join(parts: seq<string>, sep: char): string {
    if parts == [] then ""
    else if |parts| == 1 then parts[0]
    else parts[0] + [sep] + Join(parts[1..], sep)
  }

  /** `s.split(sep)`: the inverse the join is checked against. */
  function Split(s: string, sep: char): (r: seq<string>)
    ensures |r| >= 1
  {
    if s == [] then [""]
    else
      var rest := Split(s[1..], sep);
      if s[0] == sep then [""] + rest else [[s[0]] + rest[0]] + rest[1..]
  }

  /** The data-check-string: the sorted entries joined by line feeds. */
  function DataCheckString(dump: seq<Field>): string {
    Join(Sort(CheckEntries(dump)), Separator)
  }

  // --------------------------------------------------- the string order

  lemma {:induction false} LessEqTotal(a: string, b: string)
    ensures LessEq(a, b) || LessEq(b, a)
    decreases |a|
  {
    if a != [] && b != [] && a[0] == b[0] {
      LessEqTotal(a[1..], b[1..]);
    }
  }

  lemma {:induction false} LessEqTransitive(a: string, b: string, c: string)
    requires LessEq(a, b) && LessEq(b, c)
    ensures LessEq(a, c)
    decreases |a|
  {
    if a != [] && a[0] == b[0] && b[0] == c[0] {
      LessEqTransitive(a[1..], b[1..], c[1..]);
    }
  }

  lemma {:induction false} LessEqAntisymmetric(a: string, b: string)
    requires LessEq(a, b) && LessEq(b, a)
    ensures a == b
    decreases |a|
  {
    if a != [] {
      LessEqAntisymmetric(a[1..], b[1..]);
      assert a == [a[0]] + a[1..] && b == [b[0]] + b[1..];
    }
  }

  // --------------------------------------------------- sorting

  lemma ConsSorted(h: string, t: seq<string>)
    requires Sorted(t)
    requires forall k :: 0 <= k < |t| ==> LessEq(h, t[k])
    ensures Sorted([h] + t)
  {
    var r := [h] + t;
    forall i, j | 0 <= i < j < |r| ensures LessEq(r[i], r[j]) {
      if i == 0 {
        assert r[j] == t[j - 1];
      } else {
        assert r[i] == t[i - 1] && r[j] == t[j - 1];
      }
    }
  }

  lemma {:induction false} InsertPermutes(x: string, s: seq<string>)
    ensures multiset(Insert(x, s)) == multiset(s) + multiset{x}
  {
    if s != [] && !LessEq(x, s[0]) {
      InsertPermutes(x, s[1..]);
      assert s == [s[0]] + s[1..];
    }
  }

  lemma {:induction false} InsertLowerBound(h: string, x: string, t: seq<string>)
    requires LessEq(h, x)
    requires forall k :: 0 <= k < |t| ==> LessEq(h, t[k])
    ensures forall k :: 0 <= k < |Insert(x, t)| ==> LessEq(h, Insert(x, t)[k])
  {
    if t != [] && !LessEq(x, t[0]) {
      InsertLowerBound(h, x, t[1..]);
      var r := Insert(x, t);
      forall k | 1 <= k < |r| ensures LessEq(h, r[k]) {
        assert r[k] == Insert(x, t[1..])[k - 1];
      }
    }
  }

  lemma {:induction false} InsertSorted(x: string, s: seq<string>)
    requires Sorted(s)
    ensures Sorted(Insert(x, s))
  {
    if s == [] {
    } else if LessEq(x, s[0]) {
      forall k | 0 <= k < |s| ensures LessEq(x, s[k]) {
        if k > 0 { LessEqTransitive(x, s[0], s[k]); }
      }
      ConsSorted(x, s);
    } else {
      LessEqTotal(x, s[0]);
      SortedTail(s);
      InsertSorted(x, s[1..]);
      InsertLowerBound(s[0], x, s[1..]);
      ConsSorted(s[0], Insert(x, s[1..]));
    }
  }

  /** The sort yields an ascending permutation of its input. */
  lemma {:induction false} SortSortsAndPermutes(s: seq<string>)
    ensures Sorted(Sort(s))
    ensures multiset(Sort(s)) == multiset(s)
  {
    if s != [] {
      SortSortsAndPermutes(s[1..]);
      InsertSorted(s[0], Sort(s[1..]));
      InsertPermutes(s[0], Sort(s[1..]));
      assert s == [s[0]] + s[1..];
    }
  }

  lemma MultisetCancel<T>(x: T, a: multiset<T>, b: multiset<T>)
    requires multiset{x} + a == multiset{x} + b
    ensures a == b
  {
    forall z ensures a[z] == b[z] {
      assert (multiset{x} + a)[z] == (multiset{x} + b)[z];
    }
  }

  /** The tail of an ascending list is ascending. */
  lemma SortedTail(a: seq<string>)
    requires Sorted(a) && a != []
    ensures Sorted(a[1..])
  {
    forall i, j | 0 <= i < j < |a[1..]| ensures LessEq(a[1..][i], a[1..][j]) {
      assert a[1..][i] == a[i + 1] && a[1..][j] == a[j + 1];
    }
  }

  /** The head of an ascending list is below every element of it. */
  lemma SortedHeadLeast(a: seq<string>, y: string)
    requires Sorted(a) && a != [] && y in a
    ensures LessEq(a[0], y)
  {
    var m :| 0 <= m < |a| && a[m] == y;
    if m == 0 { LessEqTotal(y, y); }
  }

  /** An ascending list is determined by its elements: two sorted permutations of each other are equal. */
  lemma {:induction false} SortedUnique(a: seq<string>, b: seq<string>)
    requires Sorted(a) && Sorted(b) && multiset(a) == multiset(b)
    ensures a == b
    decreases |a|
  {
    if a == [] {
      assert |multiset(b)| == 0;
    } else {
      assert |b| == |multiset(b)| == |a|;
      assert a[0] in multiset(b) && b[0] in multiset(a);
      SortedHeadLeast(b, a[0]);
      SortedHeadLeast(a, b[0]);
      LessEqAntisymmetric(a[0], b[0]);
      assert multiset(a) == multiset{a[0]} + multiset(a[1..]) by { assert a == [a[0]] + a[1..]; }
      assert multiset(b) == multiset{b[0]} + multiset(b[1..]) by { assert b == [b[0]] + b[1..]; }
      MultisetCancel(a[0], multiset(a[1..]), multiset(b[1..]));
      SortedTail(a);
      SortedTail(b);
      SortedUnique(a[1..], b[1..]);
    }
  }

  // --------------------------------------------------- join and split

  lemma {:induction false} SplitWithoutSeparator(p: string, sep: char)
    requires sep !in p
    ensures Split(p, sep) == [p]
  {
    if p != [] {
      SplitWithoutSeparator(p[1..], sep);
      assert p == [p[0]] + p[1..];
    }
  }

  lemma {:induction false} SplitAtFirstSeparator(p: string, sep: char, t: string)
    requires sep !in p
    ensures Split(p + [sep] + t, sep) == [p] + Split(t, sep)
  {
    if p == [] {
      assert p + [sep] + t == [sep] + t;
      assert ([sep] + t)[1..] == t;
    } else {
      assert (p + [sep] + t)[1..] == p[1..] + [sep] + t;
      SplitAtFirstSeparator(p[1..], sep, t);
      assert p == [p[0]] + p[1..];
    }
  }

  /**
    Joining is undone by splitting when no part holds the separator: the
    joined string carries the parts in order, separated once, with no
    separator at the end.
  */
  lemma {:induction false} SplitJoin(parts: seq<string>, sep: char)
    requires |parts| > 0
    requires forall i :: 0 <= i < |parts| ==> sep !in parts[i]
    ensures Split(Join(parts, sep), sep) == parts
  {
    if |parts| == 1 {
      SplitWithoutSeparator(parts[0], sep);
    } else {
      SplitJoin(parts[1..], sep);
      SplitAtFirstSeparator(parts[0], sep, Join(parts[1..], sep));
      assert parts == [parts[0]] + parts[1..];
    }
  }

  // --------------------------------------------------- entries

  lemma {:induction false} EntriesAppend(fields: seq<Field>, f: Field)
    ensures Entries(fields + [f]) == Entries(fields) + (if f.value.Some? then [Entry(f)] else [])
  {
    if fields == [] {
      assert fields + [f] == [f];
    } else {
      assert (fields + [f])[1..] == fields[1..] + [f];
      EntriesAppend(fields[1..], f);
    }
  }

  /**
    An entry of the data-check-string comes from exactly one kind of field:
    one that is neither `hash` nor `photo_url` and whose value is not `None`;
    every such field contributes its `k=v` entry.
  */
  lemma {:induction false} CheckEntriesCharacterised(dump: seq<Field>)
    ensures forall e :: e in CheckEntries(dump) <==>
      exists i :: 0 <= i < |dump| && Included(dump[i]) && e == Entry(dump[i])
  {
    if dump != [] {
      CheckEntriesCharacterised(dump[1..]);
      forall e
        ensures e in CheckEntries(dump) <==> exists i :: 0 <= i < |dump| && Included(dump[i]) && e == Entry(dump[i])
      {
        if e in CheckEntries(dump) && !(Included(dump[0]) && e == Entry(dump[0])) {
          assert e in CheckEntries(dump[1..]);
          var i :| 0 <= i < |dump[1..]| && Included(dump[1..][i]) && e == Entry(dump[1..][i]);
          assert dump[i + 1] == dump[1..][i];
        }
        if exists i :: 0 <= i < |dump| && Included(dump[i]) && e == Entry(dump[i]) {
          var i :| 0 <= i < |dump| && Included(dump[i]) && e == Entry(dump[i]);
          if i > 0 {
            assert dump[1..][i - 1] == dump[i];
            assert e in CheckEntries(dump[1..]);
          }
        }
      }
    }
  }

  /** Each included field gives one entry: the number of entries is the number of included fields. */
  function CountIncluded(dump: seq<Field>): nat {
    if dump == [] then 0 else (if Included(dump[0]) then 1 else 0) + CountIncluded(dump[1..])
  }

  lemma {:induction false} CheckEntriesCount(dump: seq<Field>)
    ensures |CheckEntries(dump)| == CountIncluded(dump)
  {
    if dump != [] {
      CheckEntriesCount(dump[1..]);
    }
  }

  /** The received `hash` and `photo_url` values never influence the data-check-string. */
  lemma {:induction false} ExcludedFieldsIgnored(d1: seq<Field>, d2: seq<Field>)
    requires |d1| == |d2|
    requires forall i :: 0 <= i < |d1| ==> d1[i].key == d2[i].key && (!Excluded(d1[i].key) ==> d1[i] == d2[i])
    ensures DataCheckString(d1) == DataCheckString(d2)
  {
    DumpedAgree(d1, d2);
  }

  lemma {:induction false} DumpedAgree(d1: seq<Field>, d2: seq<Field>)
    requires |d1| == |d2|
    requires forall i :: 0 <= i < |d1| ==> d1[i].key == d2[i].key && (!Excluded(d1[i].key) ==> d1[i] == d2[i])
    ensures Dumped(d1) == Dumped(d2)
  {
    if d1 != [] {
      DumpedAgree(d1[1..], d2[1..]);
    }
  }

  lemma {:induction false} CheckEntriesConcat(a: seq<Field>, b: seq<Field>)
    ensures multiset(CheckEntries(a + b)) == multiset(CheckEntries(a)) + multiset(CheckEntries(b))
  {
    if a == [] {
      assert a + b == b;
    } else {
      assert (a + b)[1..] == a[1..] + b;
      CheckEntriesConcat(a[1..], b);
    }
  }

  /** Because the entries are sorted, the order in which the fields arrive does not matter. */
  lemma {:induction false} FieldOrderIgnored(d1: seq<Field>, d2: seq<Field>)
    requires multiset(d1) == multiset(d2)
    ensures DataCheckString(d1) == DataCheckString(d2)
  {
    EntriesPermutation(d1, d2);
    SortSortsAndPermutes(CheckEntries(d1));
    SortSortsAndPermutes(CheckEntries(d2));
    SortedUnique(Sort(CheckEntries(d1)), Sort(CheckEntries(d2)));
  }

  /** Taking out the field at `k` takes out its entries and nothing else. */
  lemma CheckEntriesRemoveAt(d: seq<Field>, k: nat)
    requires k < |d|
    ensures multiset(CheckEntries(d)) == multiset(CheckEntries(d[..k] + d[k + 1..])) + multiset(CheckEntries([d[k]]))
  {
    assert d == d[..k] + [d[k]] + d[k + 1..];
    CheckEntriesConcat(d[..k], d[k + 1..]);
    CheckEntriesConcat(d[..k] + [d[k]], d[k + 1..]);
    CheckEntriesConcat(d[..k], [d[k]]);
  }

  lemma RemoveAtMultiset(d1: seq<Field>, d2: seq<Field>, k: nat)
    requires d1 != [] && k < |d2| && d2[k] == d1[0] && multiset(d1) == multiset(d2)
    ensures multiset(d1[1..]) == multiset(d2[..k] + d2[k + 1..])
  {
    var rest2 := d2[..k] + d2[k + 1..];
    assert multiset(d2) == multiset(rest2) + multiset{d2[k]} by {
      assert d2 == d2[..k] + [d2[k]] + d2[k + 1..];
    }
    assert multiset(d1) == multiset{d1[0]} + multiset(d1[1..]) by { assert d1 == [d1[0]] + d1[1..]; }
    MultisetCancel(d1[0], multiset(d1[1..]), multiset(rest2));
  }

  lemma {:induction false} EntriesPermutation(d1: seq<Field>, d2: seq<Field>)
    requires multiset(d1) == multiset(d2)
    ensures multiset(CheckEntries(d1)) == multiset(CheckEntries(d2))
    decreases |d1|
  {
    if d1 == [] {
      assert |multiset(d2)| == 0;
    } else {
      assert d1[0] in multiset(d2);
      var k :| 0 <= k < |d2| && d2[k] == d1[0];
      var rest2 := d2[..k] + d2[k + 1..];
      var head := multiset(CheckEntries([d1[0]]));
      RemoveAtMultiset(d1, d2, k);
      EntriesPermutation(d1[1..], rest2);
      CheckEntriesRemoveAt(d2, k);
      CheckEntriesConcat([d1[0]], d1[1..]);
      assert [d1[0]] + d1[1..] == d1;
      calc {
        multiset(CheckEntries(d1));
        head + multiset(CheckEntries(d1[1..]));
        head + multiset(CheckEntries(rest2));
        multiset(CheckEntries(d2));
      }
    }
  }

  /**
    The data-check-string lists the check entries in ascending order, one
    per line, and nothing else, provided no entry holds a line feed.
  */
  lemma DataCheckStringLines(dump: seq<Field>)
    requires CountIncluded(dump) > 0
    requires forall e :: e in CheckEntries(dump) ==> Separator !in e
    ensures Sorted(Split(DataCheckString(dump), Separator))
    ensures multiset(Split(DataCheckString(dump), Separator)) == multiset(CheckEntries(dump))
  {
    var entries := CheckEntries(dump);
    CheckEntriesCount(dump);
    SortSortsAndPermutes(entries);
    var sorted := Sort(entries);
    assert |sorted| == |multiset(sorted)| == |entries|;
    forall i | 0 <= i < |sorted| ensures Separator !in sorted[i] {
      assert sorted[i] in multiset(entries);
    }
    SplitJoin(sorted, Separator);
  }

  // --------------------------------------------------- the check

  /**
    validate_telegram_data. Fails when no bot token is configured; otherwise
    true exactly when the data is at most one day old at `now` and the hex
    HMAC-SHA-256 of the data-check-string under SHA-256(token) equals the
    received hash.
  */
  method ValidateTelegramData(data: TelegramAuth, botToken: Option<string>, now: real,
                              sha256: string -> seq<bv8>, hmacSha256Hex: (seq<bv8>, string) -> string)
    returns (r: Result<bool, ConfigError>)
    ensures r.Failure? <==> botToken.None? || botToken.value == ""
    ensures r.Success? ==>
      (r.value <==> now - data.authDate as real <= MaxAgeSeconds as real
                    && hmacSha256Hex(sha256(botToken.value), DataCheckString(data.dump)) == data.hash)
  {
    if botToken.None? || botToken.value == "" {
      return Failure(BotTokenNotConfigured);
    }
    if now - data.authDate as real > MaxAgeSeconds as real {
      return Success(false);
    }

    var dataDict := Dumped(data.dump);
    var checkArr: seq<string> := [];
    var i := 0;
    while i < |dataDict|
      invariant 0 <= i <= |dataDict|
      invariant checkArr == Entries(dataDict[..i])
    {
      var field := dataDict[i];
      EntriesAppend(dataDict[..i], field);
      assert dataDict[..i + 1] == dataDict[..i] + [field];
      if field.value.Some? {
        checkArr := checkArr + [field.key + "=" + field.value.value];
      }
      i := i + 1;
    }
    assert dataDict[..i] == dataDict;

    checkArr := Sort(checkArr);
    var dataCheckString := Join(checkArr, Separator);
    var secretKey := sha256(botToken.value);
    var hashCalc := hmacSha256Hex(secretKey, dataCheckString);
    return Success(hashCalc == data.hash);
  }
}
