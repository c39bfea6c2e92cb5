/** The canonical query string: sorted, encoded, joined (internal/platform/storage/s3.go). */
module CanonicalQuery {
  import opened AwsQuery

  // ---- Byte order on strings --------------------------------------------------------

  predicate Less(a: string, b: string) {
    b != "" && (a == "" || a[0] < b[0] || (a[0] == b[0] && Less(a[1..], b[1..])))
  }

  lemma {:induction false} LessIsStrict(a: string)
    ensures !Less(a, a)
  {
    if a != "" {
      LessIsStrict(a[1..]);
    }
  }

  lemma {:induction false} LessIsTotal(a: string, b: string)
    ensures Less(a, b) || a == b || Less(b, a)
  {
    if a != "" && b != "" && a[0] == b[0] {
      LessIsTotal(a[1..], b[1..]);
      assert a == [a[0]] + a[1..] && b == [b[0]] + b[1..];
    }
  }

  lemma {:induction false} LessIsTransitive(a: string, b: string, c: string)
    requires Less(a, b) && Less(b, c)
    ensures Less(a, c)
  {
    if a != "" && a[0] == b[0] == c[0] {
      LessIsTransitive(a[1..], b[1..], c[1..]);
    }
  }

  ghost predicate Sorted(keys: seq<string>) {
    forall i, j :: 0 <= i < j < |keys| ==> Less(keys[i], keys[j])
  }

  lemma SortedTail(keys: seq<string>)
    requires keys != [] && Sorted(keys)
    ensures Sorted(keys[1..]) && keys[0] !in keys[1..]
    ensures forall k :: k in keys[1..] <==> k in keys && k != keys[0]
  {
    LessIsStrict(keys[0]);
    assert keys == [keys[0]] + keys[1..];
  }

  lemma FirstIsMember(b: seq<string>)
    ensures b == [] || exists k :: k in b
  {
    if b != [] {
      assert b[0] in b;
    }
  }

  /** A set of strings has one sorted order. */
  lemma {:induction false} SortedUnique(a: seq<string>, b: seq<string>)
    requires Sorted(a) && Sorted(b) && forall k :: k in a <==> k in b
    ensures a == b
  {
    if a == [] {
      FirstIsMember(b);
    } else {
      assert a[0] in b;
      var i :| 0 <= i < |b| && b[i] == a[0];
      assert b[0] in a;
      var j :| 0 <= j < |a| && a[j] == b[0];
      if i > 0 && j > 0 {
        LessIsTransitive(a[0], b[0], a[0]);
        LessIsStrict(a[0]);
      }
      SortedTail(a);
      SortedTail(b);
      SortedUnique(a[1..], b[1..]);
      assert a == [a[0]] + a[1..] && b == [b[0]] + b[1..];
    }
  }

  // ---- The query string ----------------------------------------------------------------

  type Params = map<string, string>

  ghost predicate AllBytes(values: Params) {
    forall k :: k in values ==> IsBytes(k) && IsBytes(values[k])
  }

  /** A key and its value, encoded. */
  datatype Encoded = Encoded(key: string, value: string)

  function Encode(k: string, v: string): Encoded
    requires IsBytes(k) && IsBytes(v)
  {
    Encoded(AwsEncode(k), AwsEncode(v))
  }

  function Part(e: Encoded): string {
    e.key + "=" + e.value
  }

  /** strings.Join. */
  function Join(parts: seq<string>, sep: string): string {
    if parts == [] then ""
    else if |parts| == 1 then parts[0]
    else parts[0] + sep + Join(parts[1..], sep)
  }

  function Pairs(values: Params, keys: seq<string>): (pairs: seq<Encoded>)
    requires forall i :: 0 <= i < |keys| ==> keys[i] in values && IsBytes(keys[i]) && IsBytes(values[keys[i]])
  {
    seq(|keys|, i requires 0 <= i < |keys| => Encode(keys[i], values[keys[i]]))
  }

  function Parts(pairs: seq<Encoded>): (parts: seq<string>) {
    seq(|pairs|, i requires 0 <= i < |pairs| => Part(pairs[i]))
  }

  /** The keys of the map, in whatever order. */
  ghost predicate AreKeys(values: Params, keys: seq<string>) {
    forall k :: k in keys <==> k in values
  }

  ghost predicate KeyOrder(values: Params, keys: seq<string>) {
    Sorted(keys) && AreKeys(values, keys)
  }

  ghost predicate IsCanonical(values: Params, r: string)
    requires AllBytes(values)
  {
    exists keys :: KeyOrder(values, keys) && r == Join(Parts(Pairs(values, keys)), "&")
  }

  method CanonicalQueryString(values: Params) returns (r: string)
    requires AllBytes(values)
    ensures IsCanonical(values, r)
  {
    if values == map[] {
      assert KeyOrder(values, []) && Parts(Pairs(values, [])) == [];
      return "";
    }
    var keys := SortKeys(values.Keys);
    assert KeyOrder(values, keys);
    var parts := EncodeParts(values, keys);
    r := Join(parts, "&");
  }

  method EncodeParts(values: Params, keys: seq<string>) returns (parts: seq<string>)
    requires forall i :: 0 <= i < |keys| ==> keys[i] in values && IsBytes(keys[i]) && IsBytes(values[keys[i]])
    ensures parts == Parts(Pairs(values, keys))
  {
    ghost var whole := Parts(Pairs(values, keys));
    parts := [];
    for i := 0 to |keys|
      invariant parts == whole[..i]
    {
      var part := EncodePart(values, keys, i);
      OneMore(whole, i);
      parts := parts + [part];
    }
    assert whole[..|keys|] == whole;
  }

  lemma OneMore(s: seq<string>, i: nat)
    requires i < |s|
    ensures s[..i + 1] == s[..i] + [s[i]]
  {}

  /** One turn of the loop. */
  method EncodePart(values: Params, keys: seq<string>, i: nat) returns (part: string)
    requires forall i :: 0 <= i < |keys| ==> keys[i] in values && IsBytes(keys[i]) && IsBytes(values[keys[i]])
    requires i < |keys|
    ensures part == Parts(Pairs(values, keys))[i]
  {
    var k := keys[i];
    part := AwsEncode(k) + "=" + AwsEncode(values[k]);
  }

  /** sort.Strings on the keys in whatever order the map yields them: each is inserted in place. */
  method SortKeys(todo0: set<string>) returns (keys: seq<string>)
    ensures Sorted(keys) && forall k :: k in keys <==> k in todo0
  {
    keys := [];
    var todo := todo0;
    while todo != {}
      invariant todo <= todo0 && Sorted(keys)
      invariant forall k :: k in keys <==> k in todo0 && k !in todo
    {
      var k :| k in todo;
      keys := Insert(keys, k);
      todo := todo - {k};
    }
  }

  lemma LessThanRest(keys: seq<string>, i: nat, k: string)
    requires Sorted(keys) && i < |keys| && !Less(keys[i], k) && keys[i] != k
    ensures forall j :: i <= j < |keys| ==> Less(k, keys[j])
  {
    LessIsTotal(keys[i], k);
    forall j | i < j < |keys| ensures Less(k, keys[j]) {
      LessIsTransitive(k, keys[i], keys[j]);
    }
  }

  lemma InsertedSorted(keys: seq<string>, i: nat, k: string)
    requires Sorted(keys) && i <= |keys|
    requires forall j :: 0 <= j < i ==> Less(keys[j], k)
    requires forall j :: i <= j < |keys| ==> Less(k, keys[j])
    ensures Sorted(keys[..i] + [k] + keys[i..])
  {}

  method Insert(keys: seq<string>, k: string) returns (r: seq<string>)
    requires Sorted(keys) && k !in keys
    ensures Sorted(r) && forall x :: x in r <==> x in keys || x == k
  {
    var i := 0;
    while i < |keys| && Less(keys[i], k)
      invariant 0 <= i <= |keys|
      invariant forall j :: 0 <= j < i ==> Less(keys[j], k)
    {
      i := i + 1;
    }
    if i < |keys| {
      assert keys[i] in keys;
      LessThanRest(keys, i, k);
    }
    InsertedSorted(keys, i, k);
    r := keys[..i] + [k] + keys[i..];
    assert keys == keys[..i] + keys[i..];
  }

  // ---- Independence of order, and injectivity ----------------------------------------------

  /** The string does not depend on the order the map is iterated in. */
  lemma CanonicalIsUnique(values: Params, r: string, s: string)
    requires AllBytes(values) && IsCanonical(values, r) && IsCanonical(values, s)
    ensures r == s
  {
    var a :| KeyOrder(values, a) && r == Join(Parts(Pairs(values, a)), "&");
    var b :| KeyOrder(values, b) && s == Join(Parts(Pairs(values, b)), "&");
    SortedUnique(a, b);
  }

  /** A separator that is in neither prefix splits a string in one way. */
  lemma {:induction false} SplitsOnce(a: string, b: string, a': string, b': string, sep: char)
    requires a + [sep] + b == a' + [sep] + b'
    requires sep !in a && sep !in a'
    ensures a == a' && b == b'
  {
    var s, t := a + [sep] + b, a' + [sep] + b';
    assert s[0] == if a == "" then sep else a[0];
    assert t[0] == if a' == "" then sep else a'[0];
    assert a == "" || a[0] in a;
    assert a' == "" || a'[0] in a';
    if a != "" && a' != "" {
      assert s[1..] == a[1..] + [sep] + b && t[1..] == a'[1..] + [sep] + b';
      SplitsOnce(a[1..], b, a'[1..], b', sep);
      assert a == [a[0]] + a[1..] && a' == [a'[0]] + a'[1..];
    } else {
      assert s[1..] == b && t[1..] == b';
    }
  }

  predicate NoSeparator(s: string) {
    '&' !in s && '=' !in s
  }

  ghost predicate AllSeparable(pairs: seq<Encoded>) {
    forall i :: 0 <= i < |pairs| ==> NoSeparator(pairs[i].key) && NoSeparator(pairs[i].value)
  }

  lemma EncodedHasNoSeparator(s: string)
    requires IsBytes(s)
    ensures NoSeparator(AwsEncode(s))
  {
    AwsEncodeIsPercentEncode(s);
    EncodedIsPlain(s);
  }

  /** A part can be taken apart again, even with more behind it. */
  lemma PartSplits(e: Encoded, rest: string, f: Encoded, rest': string)
    requires AllSeparable([e, f])
    requires Part(e) + "&" + rest == Part(f) + "&" + rest'
    ensures e == f && rest == rest'
  {
    assert NoSeparator([e, f][0].key) && NoSeparator([e, f][0].value);
    assert NoSeparator([e, f][1].key) && NoSeparator([e, f][1].value);
    SplitsOnce(Part(e), rest, Part(f), rest', '&');
    SplitsOnce(e.key, e.value, f.key, f.value, '=');
  }

  /** Every part followed by the separator. */
  function Terminated(parts: seq<string>): string {
    if parts == [] then "" else parts[0] + "&" + Terminated(parts[1..])
  }

  lemma {:induction false} JoinTerminated(parts: seq<string>)
    requires parts != []
    ensures Join(parts, "&") + "&" == Terminated(parts)
  {
    if |parts| == 1 {
      assert parts[0] + "&" + "" == parts[0] + "&";
    } else {
      JoinTerminated(parts[1..]);
      var j := Join(parts[1..], "&");
      assert parts[0] + "&" + j + "&" == parts[0] + "&" + (j + "&");
    }
  }

  lemma PartsTail(a: seq<Encoded>)
    requires a != []
    ensures Terminated(Parts(a)) == Part(a[0]) + "&" + Terminated(Parts(a[1..]))
  {
    assert Parts(a)[1..] == Parts(a[1..]);
  }

  lemma {:induction false} TerminatedInjective(a: seq<Encoded>, b: seq<Encoded>)
    requires AllSeparable(a) && AllSeparable(b) && Terminated(Parts(a)) == Terminated(Parts(b))
    ensures a == b
    decreases |a|
  {
    if a == [] || b == [] {
      assert |Terminated(Parts(a))| == 0;
    } else {
      PartsTail(a);
      PartsTail(b);
      PartSplits(a[0], Terminated(Parts(a[1..])), b[0], Terminated(Parts(b[1..])));
      TerminatedInjective(a[1..], b[1..]);
      assert a == [a[0]] + a[1..] && b == [b[0]] + b[1..];
    }
  }

  /** The empty map has the empty string, which no part has. */
  lemma JoinedTerminated(a: seq<Encoded>)
    ensures a == [] ==> Join(Parts(a), "&") == ""
    ensures a != [] ==> Join(Parts(a), "&") != "" && Join(Parts(a), "&") + "&" == Terminated(Parts(a))
  {
    if a != [] {
      JoinTerminated(Parts(a));
      PartsTail(a);
      assert |Part(a[0])| >= 1;
    }
  }

  lemma JoinedInjective(a: seq<Encoded>, b: seq<Encoded>)
    requires AllSeparable(a) && AllSeparable(b) && Join(Parts(a), "&") == Join(Parts(b), "&")
    ensures a == b
  {
    JoinedTerminated(a);
    JoinedTerminated(b);
    if a != [] && b != [] {
      TerminatedInjective(a, b);
    }
  }

  lemma PairsAt(m: Params, a: seq<string>, i: nat)
    requires AllBytes(m) && i < |a| && forall j :: 0 <= j < |a| ==> a[j] in m
    ensures Pairs(m, a)[i] == Encoded(AwsEncode(a[i]), AwsEncode(m[a[i]]))
    ensures NoSeparator(Pairs(m, a)[i].key) && NoSeparator(Pairs(m, a)[i].value)
  {
    EncodedHasNoSeparator(a[i]);
    EncodedHasNoSeparator(m[a[i]]);
  }

  lemma PairsInjectiveAt(m: Params, a: seq<string>, n: Params, b: seq<string>, i: nat)
    requires AllBytes(m) && forall j :: 0 <= j < |a| ==> a[j] in m
    requires AllBytes(n) && forall j :: 0 <= j < |b| ==> b[j] in n
    requires Pairs(m, a) == Pairs(n, b) && i < |a| == |b|
    ensures a[i] == b[i] && m[a[i]] == n[b[i]]
  {
    PairsAt(m, a, i);
    PairsAt(n, b, i);
    AwsEncodeInjective(a[i], b[i]);
    AwsEncodeInjective(m[a[i]], n[b[i]]);
  }

  lemma PairsInjective(m: Params, a: seq<string>, n: Params, b: seq<string>)
    requires AllBytes(m) && forall j :: 0 <= j < |a| ==> a[j] in m
    requires AllBytes(n) && forall j :: 0 <= j < |b| ==> b[j] in n
    requires Pairs(m, a) == Pairs(n, b) && |a| == |b|
    ensures a == b && forall i :: 0 <= i < |a| ==> m[a[i]] == n[a[i]]
  {
    forall i | 0 <= i < |a| ensures a[i] == b[i] && m[a[i]] == n[b[i]] {
      PairsInjectiveAt(m, a, n, b, i);
    }
  }

  lemma PairsSeparable(m: Params, a: seq<string>)
    requires AllBytes(m) && forall j :: 0 <= j < |a| ==> a[j] in m
    ensures |Pairs(m, a)| == |a| && AllSeparable(Pairs(m, a))
  {
    forall i | 0 <= i < |a| ensures NoSeparator(Pairs(m, a)[i].key) && NoSeparator(Pairs(m, a)[i].value) {
      PairsAt(m, a, i);
    }
  }

  lemma SameParams(m: Params, n: Params, keys: seq<string>)
    requires forall k :: k in keys <==> k in m
    requires forall k :: k in keys <==> k in n
    requires forall i :: 0 <= i < |keys| ==> m[keys[i]] == n[keys[i]]
    ensures m == n
  {}

  lemma JoinedPairsInjective(m: Params, a: seq<string>, n: Params, b: seq<string>)
    requires AllBytes(m) && forall j :: 0 <= j < |a| ==> a[j] in m
    requires AllBytes(n) && forall j :: 0 <= j < |b| ==> b[j] in n
    requires Join(Parts(Pairs(m, a)), "&") == Join(Parts(Pairs(n, b)), "&")
    ensures a == b && forall i :: 0 <= i < |a| ==> m[a[i]] == n[a[i]]
  {
    PairsSeparable(m, a);
    PairsSeparable(n, b);
    JoinedInjective(Pairs(m, a), Pairs(n, b));
    PairsInjective(m, a, n, b);
  }

  lemma SameMaps(m: Params, a: seq<string>, n: Params, b: seq<string>)
    requires AllBytes(m) && AllBytes(n) && AreKeys(m, a) && AreKeys(n, b)
    requires Join(Parts(Pairs(m, a)), "&") == Join(Parts(Pairs(n, b)), "&")
    ensures m == n
  {
    JoinedPairsInjective(m, a, n, b);
    SameParams(m, n, a);
  }

  /** Different parameter maps have different canonical query strings. */
  lemma CanonicalIsInjective(m: Params, n: Params, r: string)
    requires AllBytes(m) && AllBytes(n) && IsCanonical(m, r) && IsCanonical(n, r)
    ensures m == n
  {
    var a :| KeyOrder(m, a) && r == Join(Parts(Pairs(m, a)), "&");
    var b :| KeyOrder(n, b) && r == Join(Parts(Pairs(n, b)), "&");
    SameMaps(m, a, n, b);
  }
}
