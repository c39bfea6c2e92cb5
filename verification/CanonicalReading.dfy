/** Reading a canonical query string back: its pairs, decoded, are the parameters in the byte order of their
    keys. */
module CanonicalReading {
  import opened Wrappers
  import opened AwsQuery
  import opened CanonicalQuery

  /** `a` comes before `b` in byte order: it is a proper prefix, or smaller where they first differ. */
  ghost predicate ComesBefore(a: string, b: string) {
    exists n :: 0 <= n <= |a| && n < |b| && a[..n] == b[..n] && (n == |a| || a[n] < b[n])
  }

  lemma {:induction false} LessExactly(a: string, b: string)
    ensures Less(a, b) <==> ComesBefore(a, b)
  {
    forall n | 0 < n <= |a| && n < |b| && a[..n] == b[..n] ensures a[0] == b[0] {
      assert a[..n][0] == b[..n][0];
    }
    if a != "" && b != "" && a[0] == b[0] {
      LessExactly(a[1..], b[1..]);
      if Less(a[1..], b[1..]) {
        var n :| 0 <= n <= |a[1..]| && n < |b[1..]| && a[1..][..n] == b[1..][..n] && (n == |a[1..]| || a[1..][n] < b[1..][n]);
        assert a[..n + 1] == [a[0]] + a[1..][..n] && b[..n + 1] == [b[0]] + b[1..][..n];
      }
      if ComesBefore(a, b) {
        var n :| 0 <= n <= |a| && n < |b| && a[..n] == b[..n] && (n == |a| || a[n] < b[n]);
        assert a[1..][..n - 1] == a[..n][1..] && b[1..][..n - 1] == b[..n][1..];
      }
    } else if b != "" {
      assert a[..0] == b[..0];
    }
  }

  // ---- Splitting ------------------------------------------------------------------------

  /** What comes before the first `sep`, or everything. */
  function Head(s: string, sep: char): string {
    if s == "" || s[0] == sep then "" else [s[0]] + Head(s[1..], sep)
  }

  /** What comes after the first `sep`, or nothing. */
  function Rest(s: string, sep: char): string {
    if s == "" then "" else if s[0] == sep then s[1..] else Rest(s[1..], sep)
  }

  lemma {:induction false} SplitAt(a: string, sep: char, b: string)
    requires sep !in a
    ensures Head(a + [sep] + b, sep) == a && Rest(a + [sep] + b, sep) == b
  {
    var s := a + [sep] + b;
    if a != "" {
      assert a[0] in a && s[1..] == a[1..] + [sep] + b;
      SplitAt(a[1..], sep, b);
      assert a == [a[0]] + a[1..];
    } else {
      assert s[0] == sep && s[1..] == b;
    }
  }

  lemma {:induction false} SplitNone(a: string, sep: char)
    requires sep !in a
    ensures Head(a, sep) == a && Rest(a, sep) == ""
  {
    if a != "" {
      assert a[0] in a;
      SplitNone(a[1..], sep);
    }
  }

  // ---- Reading ---------------------------------------------------------------------------

  datatype Pair = Pair(key: Option<string>, value: Option<string>)

  function ReadPart(part: string): Pair {
    Pair(PercentDecode(Head(part, '=')), PercentDecode(Rest(part, '=')))
  }

  /** The pairs between the ampersands. */
  function Read(s: string): seq<Pair>
    decreases |s|
  {
    if s == "" then []
    else
      RestIsShorter(s, '&');
      [ReadPart(Head(s, '&'))] + Read(Rest(s, '&'))
  }

  lemma {:induction false} RestIsShorter(s: string, sep: char)
    requires s != ""
    ensures |Rest(s, sep)| < |s|
  {
    if s[0] != sep && s[1..] != "" {
      RestIsShorter(s[1..], sep);
    }
  }

  function Decoded(pairs: seq<Encoded>): (r: seq<Pair>)
    ensures |r| == |pairs|
  {
    seq(|pairs|, i requires 0 <= i < |pairs| => Pair(PercentDecode(pairs[i].key), PercentDecode(pairs[i].value)))
  }

  lemma ReadOnePart(e: Encoded)
    requires NoSeparator(e.key) && NoSeparator(e.value)
    ensures ReadPart(Part(e)) == Pair(PercentDecode(e.key), PercentDecode(e.value))
    ensures '&' !in Part(e) && Part(e) != ""
  {
    SplitAt(e.key, '=', e.value);
    assert Part(e) == e.key + ['='] + e.value;
  }

  lemma {:induction false} ReadJoined(pairs: seq<Encoded>)
    requires AllSeparable(pairs)
    ensures Read(Join(Parts(pairs), "&")) == Decoded(pairs)
  {
    if pairs != [] {
      var rest := Join(Parts(pairs[1..]), "&");
      ReadOnePart(pairs[0]);
      ReadJoined(pairs[1..]);
      assert Parts(pairs)[1..] == Parts(pairs[1..]);
      assert Decoded(pairs) == [Decoded(pairs)[0]] + Decoded(pairs[1..]);
      if |pairs| == 1 {
        SplitNone(Part(pairs[0]), '&');
      } else {
        SplitAt(Part(pairs[0]), '&', rest);
        assert Join(Parts(pairs), "&") == Part(pairs[0]) + ['&'] + rest;
      }
    }
  }

  /** Reading a canonical string gives every parameter, once, in strictly increasing byte order of the keys. */
  lemma CanonicalReadsBack(values: Params, r: string) returns (keys: seq<string>)
    requires AllBytes(values) && IsCanonical(values, r)
    ensures forall k :: k in keys <==> k in values
    ensures forall i, j :: 0 <= i < j < |keys| ==> ComesBefore(keys[i], keys[j])
    ensures |Read(r)| == |keys|
    ensures forall i :: 0 <= i < |keys| ==> keys[i] in values && Read(r)[i] == Pair(Some(keys[i]), Some(values[keys[i]]))
  {
    keys :| KeyOrder(values, keys) && r == Join(Parts(Pairs(values, keys)), "&");
    ReadInOrder(values, keys);
    InByteOrder(keys);
  }

  lemma InByteOrder(keys: seq<string>)
    requires Sorted(keys)
    ensures forall i, j :: 0 <= i < j < |keys| ==> ComesBefore(keys[i], keys[j])
  {
    forall i, j | 0 <= i < j < |keys| ensures ComesBefore(keys[i], keys[j]) {
      LessExactly(keys[i], keys[j]);
    }
  }

  lemma ReadInOrder(values: Params, keys: seq<string>)
    requires AllBytes(values) && AreKeys(values, keys)
    ensures var r := Join(Parts(Pairs(values, keys)), "&");
            && |Read(r)| == |keys|
            && forall i :: 0 <= i < |keys| ==> keys[i] in values && Read(r)[i] == Pair(Some(keys[i]), Some(values[keys[i]]))
  {
    PairsSeparable(values, keys);
    ReadJoined(Pairs(values, keys));
    forall i | 0 <= i < |keys|
      ensures keys[i] in values && Decoded(Pairs(values, keys))[i] == Pair(Some(keys[i]), Some(values[keys[i]]))
    {
      assert keys[i] in keys;
      DecodedAt(values, keys, i);
    }
  }

  lemma DecodedAt(values: Params, keys: seq<string>, i: nat)
    requires AllBytes(values) && i < |keys| && forall j :: 0 <= j < |keys| ==> keys[j] in values
    ensures Decoded(Pairs(values, keys))[i] == Pair(Some(keys[i]), Some(values[keys[i]]))
  {
    PairsAt(values, keys, i);
    AwsEncodeInjective(keys[i], keys[i]);
    AwsEncodeInjective(values[keys[i]], values[keys[i]]);
  }
}
