/** Slug generation (internal/service/auth/service.go). Unicode's lower-case mapping and its white
    space are parameters: all that matters is that they leave slug characters alone. */
module Slugs {

  predicate Alnum(c: char) {
    'a' <= c <= 'z' || '0' <= c <= '9'
  }

  /** A lower-case mapping and a notion of white space that leave slug characters alone. */
  ghost predicate LeavesSlugsAlone(lower: char -> char, space: char -> bool) {
    forall c :: Alnum(c) || c == '-' ==> lower(c) == c && !space(c)
  }

  function Lowered(s: string, lower: char -> char): (r: string)
    ensures |r| == |s| && forall i :: 0 <= i < |s| ==> r[i] == lower(s[i])
  {
    seq(|s|, i requires 0 <= i < |s| => lower(s[i]))
  }

  function TrimLeft(s: string, cut: char -> bool): string {
    if s != "" && cut(s[0]) then TrimLeft(s[1..], cut) else s
  }

  function TrimRight(s: string, cut: char -> bool): string {
    if s != "" && cut(s[|s| - 1]) then TrimRight(s[..|s| - 1], cut) else s
  }

  /** strings.TrimSpace and strings.Trim. */
  function Trim(s: string, cut: char -> bool): string {
    TrimRight(TrimLeft(s, cut), cut)
  }

  predicate IsHyphen(c: char) {
    c == '-'
  }

  /** Empty, or runs of [a-z0-9] with single hyphens between them. */
  ghost predicate IsSlug(s: string) {
    && (forall i :: 0 <= i < |s| ==> Alnum(s[i]) || s[i] == '-')
    && (s != "" ==> Alnum(s[0]) && Alnum(s[|s| - 1]))
    && (forall i :: 0 < i < |s| ==> Alnum(s[i - 1]) || Alnum(s[i]))
  }

  // ---- The meaning of a slug ---------------------------------------------------------

  predicate EndsInWord(s: string) {
    s != "" && Alnum(s[|s| - 1])
  }

  /** The maximal runs of [a-z0-9] in a text. */
  function Words(s: string): seq<string> {
    if s == "" then []
    else
      var p, c := s[..|s| - 1], s[|s| - 1];
      var w := Words(p);
      if !Alnum(c) then w
      else if EndsInWord(p) && w != [] then w[|w| - 1 := w[|w| - 1] + [c]]
      else w + [[c]]
  }

  function Hyphenated(words: seq<string>): string {
    if words == [] then ""
    else if |words| == 1 then words[0]
    else Hyphenated(words[..|words| - 1]) + "-" + words[|words| - 1]
  }

  function Slug(s: string): string {
    Hyphenated(Words(s))
  }

  lemma {:induction false} WordsEnd(s: string)
    ensures EndsInWord(s) ==> Words(s) != []
    ensures forall i :: 0 <= i < |Words(s)| ==> Words(s)[i] != ""
  {
    if s != "" {
      WordsEnd(s[..|s| - 1]);
    }
  }

  /** How one more character changes the slug. */
  lemma SlugGrows(p: string, c: char)
    ensures Slug(p + [c]) ==
            if !Alnum(c) then Slug(p)
            else if EndsInWord(p) || Words(p) == [] then Slug(p) + [c]
            else Slug(p) + "-" + [c]
  {
    var s := p + [c];
    assert s[..|s| - 1] == p;
    WordsEnd(p);
    var w := Words(p);
    if Alnum(c) {
      if EndsInWord(p) {
        var w' := w[|w| - 1 := w[|w| - 1] + [c]];
        assert w'[..|w'| - 1] == w[..|w| - 1];
        if |w| > 1 {
          assert Hyphenated(w') == Hyphenated(w[..|w| - 1]) + "-" + (w[|w| - 1] + [c]);
        }
      } else {
        assert (w + [[c]])[..|w|] == w;
      }
    }
  }

  lemma {:induction false} SlugIsSlug(s: string)
    ensures IsSlug(Slug(s))
    ensures Slug(s) == "" <==> Words(s) == []
  {
    if s != "" {
      var p, c := s[..|s| - 1], s[|s| - 1];
      SlugIsSlug(p);
      assert s == p + [c];
      SlugGrows(p, c);
      WordsEnd(s);
      WordsEnd(p);
      assert Slug(p) != "" ==> Alnum(Slug(p)[|Slug(p)| - 1]);
      LongerSlug(Slug(p), c);
    }
  }

  /** The letters a to z and digits of a text, in order. */
  function Letters(s: string): string {
    if s == "" then ""
    else
      var c := s[|s| - 1];
      Letters(s[..|s| - 1]) + if ('a' <= c && c <= 'z') || ('0' <= c && c <= '9') then [c] else ""
  }

  lemma OneMoreLetter(s: string, c: char)
    ensures Letters(s + [c]) == Letters(s) + if ('a' <= c && c <= 'z') || ('0' <= c && c <= '9') then [c] else ""
  {
    assert (s + [c])[..|s|] == s;
  }

  lemma LettersBehindHyphen(s: string, c: char)
    ensures Letters(s + "-" + [c]) == Letters(s + [c])
  {
    OneMoreLetter(s, c);
    OneMoreLetter(s, '-');
    OneMoreLetter(s + "-", c);
  }

  lemma OneMoreSlugLetter(p: string, c: char)
    ensures Letters(Slug(p + [c])) == Letters(if Alnum(c) then Slug(p) + [c] else Slug(p))
  {
    SlugGrows(p, c);
    LettersBehindHyphen(Slug(p), c);
  }

  /** A slug has exactly the letters and digits of its text, in order. */
  lemma {:induction false} SlugKeepsLetters(s: string)
    ensures Letters(Slug(s)) == Letters(s)
  {
    if s != "" {
      var p, c := s[..|s| - 1], s[|s| - 1];
      SlugKeepsLetters(p);
      assert s == p + [c];
      OneMoreSlugLetter(p, c);
      OneMoreLetter(p, c);
      OneMoreLetter(Slug(p), c);
    }
  }

  /** All else in it is hyphens. */
  lemma SlugCharacters(s: string)
    ensures forall c :: c in Slug(s) ==> 'a' <= c <= 'z' || '0' <= c <= '9' || c == '-'
  {
    SlugIsSlug(s);
  }

  /** A slug stays one with a character, or a hyphen and a character, behind it. */
  lemma LongerSlug(s: string, c: char)
    requires IsSlug(s)
    ensures Alnum(c) ==> IsSlug(s + [c]) && (s != "" ==> IsSlug(s + "-" + [c]))
  {}

  /** Of a prefix of a slug, the slug lacks at most a hyphen at the end. */
  lemma {:induction false} SlugOfPrefix(s: string, n: nat)
    requires IsSlug(s) && n <= |s|
    ensures Slug(s[..n]) + (if n > 0 && s[n - 1] == '-' then "-" else "") == s[..n]
    ensures n > 0 ==> Words(s[..n]) != []
  {
    if n > 0 {
      var p := s[..n - 1];
      SlugOfPrefix(s, n - 1);
      assert s[..n] == p + [s[n - 1]];
      StepSlug(p, s[n - 1], p, n > 1 && s[n - 2] == '-');
      WordsEnd(s[..n]);
    }
  }

  /** A slug is its own slug. */
  lemma SlugIdempotent(s: string)
    requires IsSlug(s)
    ensures Slug(s) == s
  {
    SlugOfPrefix(s, |s|);
    assert s[..|s|] == s;
  }

  // ---- Trimming ----------------------------------------------------------------------

  lemma TrimSlug(s: string)
    requires IsSlug(s)
    ensures Trim(s, IsHyphen) == s
  {}

  lemma TrimTrailingHyphen(s: string)
    requires IsSlug(s)
    ensures Trim(s + "-", IsHyphen) == s
  {
    var t := s + "-";
    if s == "" {
      assert t == "-" && t[1..] == "";
      assert TrimLeft(t, IsHyphen) == TrimLeft("", IsHyphen) == "";
    } else {
      assert t[0] == s[0] && t[..|t| - 1] == s;
      assert TrimLeft(t, IsHyphen) == t;
      assert TrimRight(t, IsHyphen) == TrimRight(s, IsHyphen) == s;
    }
  }

  /** Where slugify's loop stands after one more character. */
  lemma StepSlug(p: string, c: char, b: string, lastHyphen: bool)
    requires b == Slug(p) + if lastHyphen then "-" else ""
    requires lastHyphen <==> Words(p) != [] && !EndsInWord(p)
    ensures b == "" <==> Words(p) == []
    ensures Alnum(c) ==> b + [c] == Slug(p + [c]) && EndsInWord(p + [c])
    ensures !Alnum(c) ==> Slug(p + [c]) == Slug(p) && Words(p + [c]) == Words(p) && !EndsInWord(p + [c])
  {}

  // ---- slugify --------------------------------------------------------------------------

  lemma TrimsToSlug(text: string, b: string, lastHyphen: bool)
    requires b == Slug(text) + if lastHyphen then "-" else ""
    ensures Trim(b, IsHyphen) == Slug(text)
  {
    SlugIsSlug(text);
    TrimSlug(Slug(text));
    TrimTrailingHyphen(Slug(text));
  }

  /** Where the loop stands before the text's `i`-th character. */
  ghost predicate StandsAt(text: string, i: nat, b: string, lastHyphen: bool)
    requires i <= |text|
  {
    && b == Slug(text[..i]) + (if lastHyphen then "-" else "")
    && (lastHyphen <==> Words(text[..i]) != [] && !EndsInWord(text[..i]))
  }

  lemma StepStands(text: string, i: nat, b: string, lastHyphen: bool)
    requires i < |text| && StandsAt(text, i, b, lastHyphen)
    ensures Alnum(text[i]) ==> StandsAt(text, i + 1, b + [text[i]], false)
    ensures !Alnum(text[i]) && b != "" && !lastHyphen ==> StandsAt(text, i + 1, b + "-", true)
    ensures !Alnum(text[i]) && (b == "" || lastHyphen) ==> StandsAt(text, i + 1, b, lastHyphen)
  {
    assert text[..i + 1] == text[..i] + [text[i]];
    StepSlug(text[..i], text[i], b, lastHyphen);
  }

  method Slugify(value: string, lower: char -> char, space: char -> bool) returns (slug: string)
    ensures slug == Slug(Lowered(Trim(value, space), lower))
  {
    var text := Lowered(Trim(value, space), lower);
    var b := "";
    var lastHyphen := false;
    for i := 0 to |text|
      invariant StandsAt(text, i, b, lastHyphen)
    {
      var r := text[i];
      StepStands(text, i, b, lastHyphen);
      if Alnum(r) {
        b := b + [r];
        lastHyphen := false;
      } else if b != "" && !lastHyphen {
        b := b + "-";
        lastHyphen := true;
      }
    }
    assert text[..|text|] == text;
    TrimsToSlug(text, b, lastHyphen);
    slug := Trim(b, IsHyphen);
  }

  function Slugified(value: string, lower: char -> char, space: char -> bool): string {
    Slug(Lowered(Trim(value, space), lower))
  }

  /** slugify yields the empty string or hyphen-separated runs, and applying it again changes nothing. */
  lemma SlugifyIdempotent(value: string, lower: char -> char, space: char -> bool)
    requires LeavesSlugsAlone(lower, space)
    ensures IsSlug(Slugified(value, lower, space))
    ensures Slugified(Slugified(value, lower, space), lower, space) == Slugified(value, lower, space)
  {
    var s := Slugified(value, lower, space);
    SlugIsSlug(Lowered(Trim(value, space), lower));
    assert Trim(s, space) == s;
    assert Lowered(s, lower) == s;
    SlugIdempotent(s);
  }

  // ---- Workspace slugs ---------------------------------------------------------------------

  const MAX_LEN := 80
  const TRIES := 25

  function Digit(n: nat): char
    requires n < 10
  {
    ('0' as int + n) as char
  }

  function Decimal(n: nat): (s: string)
    ensures |s| >= 1 && forall i :: 0 <= i < |s| ==> '0' <= s[i] <= '9'
  {
    if n < 10 then [Digit(n)] else Decimal(n / 10) + [Digit(n % 10)]
  }

  /** Cut to 80 bytes and trimmed. */
  function Shortened(s: string): string {
    if |s| > MAX_LEN then Trim(s[..MAX_LEN], IsHyphen) else s
  }

  /** The base of a workspace's slug. */
  function Base(slug: string): string {
    var b := Shortened(if slug == "" then "workspace" else slug);
    if b == "" then "workspace" else b
  }

  /** The `i`-th candidate: the base itself, then the base with a number from 2 on. */
  function Candidate(base: string, i: nat): string {
    if i <= 1 then base else Shortened(base + "-" + Decimal(i))
  }

  lemma ShortenedSlug(s: string)
    requires IsSlug(s) && s != ""
    ensures IsSlug(Shortened(s)) && 1 <= |Shortened(s)| <= MAX_LEN
    ensures |s| > MAX_LEN ==> Shortened(s) == if s[MAX_LEN - 1] == '-' then s[..MAX_LEN - 1] else s[..MAX_LEN]
  {
    if |s| > MAX_LEN {
      var t := s[..MAX_LEN];
      if s[MAX_LEN - 1] == '-' {
        assert Alnum(s[MAX_LEN - 2]);
        assert t == t[..MAX_LEN - 1] + "-" && t[..MAX_LEN - 1] == s[..MAX_LEN - 1];
        assert IsSlug(t[..MAX_LEN - 1]);
        TrimTrailingHyphen(t[..MAX_LEN - 1]);
      } else {
        TrimSlug(t);
      }
    }
  }

  lemma BaseIsSlug(slug: string)
    requires IsSlug(slug)
    ensures IsSlug(Base(slug)) && 1 <= |Base(slug)| <= MAX_LEN
  {
    ShortenedSlug(if slug == "" then "workspace" else slug);
  }

  /** The base is the slug itself, or "workspace" for the empty one, or the longest prefix of at most 80 bytes
      that is a slug. */
  lemma BaseExactly(slug: string)
    requires IsSlug(slug)
    ensures slug == "" ==> Base(slug) == "workspace"
    ensures 1 <= |slug| <= 80 ==> Base(slug) == slug
    ensures |slug| > 80 ==> Base(slug) == if slug[79] == '-' then slug[..79] else slug[..80]
  {
    ShortenedSlug(if slug == "" then "workspace" else slug);
  }

  /** Every candidate is a slug of 1 to 80 bytes. */
  lemma CandidateIsSlug(base: string, i: nat)
    requires IsSlug(base) && 1 <= |base| <= MAX_LEN
    ensures IsSlug(Candidate(base, i)) && 1 <= |Candidate(base, i)| <= MAX_LEN
  {
    NumberedIsSlug(base, i);
    ShortenedSlug(base + "-" + Decimal(i));
  }

  lemma NumberedIsSlug(base: string, i: nat)
    requires IsSlug(base) && base != ""
    ensures IsSlug(base + "-" + Decimal(i))
  {}

  /** Numbering is lost exactly on long bases: every further candidate is the base again if and only
      if the base leaves no room for a digit. */
  lemma NumberingLostExactly(base: string)
    requires IsSlug(base) && 1 <= |base| <= MAX_LEN
    ensures (forall i: nat {:trigger Candidate(base, i)} :: Candidate(base, i) == base) <==> |base| >= MAX_LEN - 1
  {
    if |base| >= MAX_LEN - 1 {
      forall i: nat ensures Candidate(base, i) == base {
        NumberedIsSlug(base, i);
        ShortenedSlug(base + "-" + Decimal(i));
        var s := base + "-" + Decimal(i);
        assert s[..|base|] == base && s[|base|] == '-';
      }
    } else {
      assert Decimal(2) == "2";
      assert Candidate(base, 2) == base + "-" + "2";
      assert |Candidate(base, 2)| == |base| + 2;
    }
  }

  lemma {:induction false} DecimalInjective(m: nat, n: nat)
    requires Decimal(m) == Decimal(n)
    ensures m == n
  {
    var s, t := Decimal(m), Decimal(n);
    if m >= 10 && n >= 10 {
      assert s[..|s| - 1] == Decimal(m / 10) && t[..|t| - 1] == Decimal(n / 10);
      DecimalInjective(m / 10, n / 10);
    }
  }

  /** The number a row of digits stands for. */
  function Number(s: string): int {
    if s == "" then 0 else 10 * Number(s[..|s| - 1]) + (s[|s| - 1] as int - '0' as int)
  }

  lemma {:induction false} DecimalIsNumber(n: nat)
    ensures Number(Decimal(n)) == n
    ensures n > 0 ==> Decimal(n)[0] != '0'
  {
    if n >= 10 {
      DecimalIsNumber(n / 10);
      assert Decimal(n)[..|Decimal(n)| - 1] == Decimal(n / 10);
    } else {
      assert Decimal(n)[..0] == "";
    }
  }

  /** With room for two digits, the candidates are the base and the base numbered from 2 to 25. */
  lemma CandidateExactly(base: string, i: nat)
    requires 1 <= i <= TRIES && |base| <= 77
    ensures if i == 1 then Candidate(base, i) == base
            else exists digits :: Candidate(base, i) == base + "-" + digits && Number(digits) == i && digits[0] != '0'
  {
    DecimalSize(i);
    DecimalIsNumber(i);
  }

  /** The tries are two digits at most. */
  lemma DecimalSize(i: nat)
    requires i <= TRIES
    ensures |Decimal(i)| == if i < 10 then 1 else 2
  {}

  /** The tries of a workspace all try something else exactly when two digits fit behind the base: at
      78 bytes the tenth and eleventh try are the same. */
  lemma CandidatesDistinctExactly(base: string)
    requires IsSlug(base) && 1 <= |base| <= MAX_LEN
    ensures (forall i, j :: 1 <= i < j <= TRIES ==> Candidate(base, i) != Candidate(base, j)) <==> |base| <= MAX_LEN - 3
  {
    if |base| <= MAX_LEN - 3 {
      forall i, j | 1 <= i < j <= TRIES ensures Candidate(base, i) != Candidate(base, j) {
        ShortCandidates(base, i, j);
      }
    } else if |base| == MAX_LEN - 2 {
      CutToOneDigit(base, 10);
      CutToOneDigit(base, 11);
    } else {
      NumberingLostExactly(base);
      assert Candidate(base, 1) == Candidate(base, 2);
    }
  }

  lemma ShortCandidates(base: string, i: nat, j: nat)
    requires 1 <= i < j <= TRIES && |base| <= MAX_LEN - 3
    ensures Candidate(base, i) != Candidate(base, j)
  {
    DecimalSize(i);
    DecimalSize(j);
    var prefix := base + "-";
    assert Candidate(base, j) == prefix + Decimal(j);
    if i > 1 && Candidate(base, i) == Candidate(base, j) {
      assert (prefix + Decimal(i))[|prefix|..] == (prefix + Decimal(j))[|prefix|..];
      DecimalInjective(i, j);
    }
  }

  /** A base of 78 bytes keeps the first digit only. */
  lemma CutToOneDigit(base: string, i: nat)
    requires IsSlug(base) && |base| == MAX_LEN - 2 && 10 <= i < 20
    ensures Candidate(base, i) == base + "-1"
  {
    assert Decimal(i) == Decimal(1) + [Digit(i % 10)] && Decimal(1) == "1";
    var s := base + "-" + Decimal(i);
    assert s[..MAX_LEN] == base + "-1";
    assert IsSlug(base + "-1");
    TrimSlug(base + "-1");
  }

  datatype Lookup = Taken | Free | Broken

  datatype Outcome = Chosen(slug: string) | Conflict | Internal

  /** The first lines of uniqueWorkspaceSlug. */
  method WorkspaceBase(raw: string, lower: char -> char, space: char -> bool) returns (base: string)
    ensures base == Base(Slugified(raw, lower, space))
    ensures IsSlug(base) && 1 <= |base| <= MAX_LEN
  {
    base := Slugify(raw, lower, space);
    SlugIsSlug(Lowered(Trim(raw, space), lower));
    BaseIsSlug(base);
    if base == "" {
      base := "workspace";
    }
    if |base| > MAX_LEN {
      base := Trim(base[..MAX_LEN], IsHyphen);
    }
    if base == "" {
      base := "workspace";
    }
  }

  method NumberedCandidate(base: string, i: nat) returns (candidate: string)
    requires i >= 2
    ensures candidate == Candidate(base, i)
  {
    candidate := base + "-" + Decimal(i);
    if |candidate| > MAX_LEN {
      candidate := candidate[..MAX_LEN];
      candidate := Trim(candidate, IsHyphen);
    }
  }

  /** The first `n` candidates are taken. */
  ghost predicate AllTaken(base: string, n: nat, lookup: (nat, string) -> Lookup) {
    forall j :: 1 <= j <= n ==> lookup(j, Candidate(base, j)) == Taken
  }

  /** Try `n` is the first whose candidate was not taken when checked, and the answer was `found`. */
  ghost predicate Settles(base: string, n: nat, candidate: string, found: Lookup, lookup: (nat, string) -> Lookup) {
    && 1 <= n <= TRIES && candidate == Candidate(base, n)
    && lookup(n, candidate) == found && AllTaken(base, n - 1, lookup)
  }

  /** uniqueWorkspaceSlug, `lookup(i, s)` being what the store answers on the `i`-th try. What it
      returns is the first candidate that was free when checked: a slug of 1 to 80 bytes. */
  method UniqueWorkspaceSlug(raw: string, lower: char -> char, space: char -> bool, lookup: (nat, string) -> Lookup)
    returns (r: Outcome)
    ensures r.Chosen? ==>
              && IsSlug(r.slug) && 1 <= |r.slug| <= MAX_LEN
              && exists n :: Settles(Base(Slugified(raw, lower, space)), n, r.slug, Free, lookup)
    ensures r.Conflict? <==> AllTaken(Base(Slugified(raw, lower, space)), 25, lookup)
    ensures r.Internal? ==> exists n, c :: Settles(Base(Slugified(raw, lower, space)), n, c, Broken, lookup)
  {
    var base := WorkspaceBase(raw, lower, space);
    var candidate := base;
    for i := 1 to TRIES + 1
      invariant candidate == Candidate(base, i)
      invariant AllTaken(base, i - 1, lookup)
    {
      CandidateIsSlug(base, i);
      match lookup(i, candidate)
      case Free =>
        assert Settles(base, i, candidate, Free, lookup);
        return Chosen(candidate);
      case Broken =>
        assert Settles(base, i, candidate, Broken, lookup);
        return Internal;
      case Taken =>
        candidate := NumberedCandidate(base, i + 1);
    }
    r := Conflict;
  }

  /** So with a base of 79 or 80 bytes that is taken, no try can succeed while it stays taken. */
  lemma LongBaseConflicts(base: string, lookup: (nat, string) -> Lookup)
    requires IsSlug(base) && MAX_LEN - 1 <= |base| <= MAX_LEN
    requires forall i: nat :: lookup(i, base) == Taken
    ensures AllTaken(base, TRIES, lookup)
  {
    NumberingLostExactly(base);
  }
}
