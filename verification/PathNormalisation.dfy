/** File path value objects: validation and the one-pass normalisation. */
module PathNormalisation {

  datatype PathError = EmptyPath | DotDot | ForbiddenChar

  datatype Result<+T> = Ok(value: T) | Err(error: PathError)

  datatype FilePath = FilePath(path: string)

  const FORBIDDEN: string := "<>:\"|?*"

  /** The character occurs twice in a row. */
  predicate HasPair(s: string, c: char) {
    exists i :: 0 <= i < |s| - 1 && s[i] == c && s[i + 1] == c
  }

  function Validate(s: string): Result<()> {
    if s == "" then Err(EmptyPath)
    else if HasPair(s, '.') then Err(DotDot)
    else if exists c :: c in FORBIDDEN && c in s then Err(ForbiddenChar)
    else Ok(())
  }

  function New(s: string): Result<FilePath> {
    match Validate(s)
    case Ok(_) => Ok(FilePath(s))
    case Err(e) => Err(e)
  }

  /** `replace("//", "/")`: non-overlapping matches from the left. */
  function Replaced(s: string): string {
    if s == "" then ""
    else if StartsDouble(s) then "/" + Replaced(s[2..])
    else [s[0]] + Replaced(s[1..])
  }

  function Normalize(p: FilePath): Result<FilePath> {
    New(Replaced(p.path))
  }

  predicate StartsDouble(s: string) {
    |s| >= 2 && s[0] == '/' && s[1] == '/'
  }

  // -------------------------------------------------------- validity is kept

  lemma {:induction false} SameHeadSameChars(s: string)
    ensures s == "" <==> Replaced(s) == ""
    ensures s != "" ==> Replaced(s)[0] == s[0]
    ensures forall c :: c in Replaced(s) <==> c in s
  {
    if s != "" {
      var k := Width(s);
      SameHeadSameChars(s[k..]);
      assert s == s[..k] + s[k..];
      assert forall c :: c in s[..k] <==> c == s[0];
      assert Replaced(s) == [s[0]] + Replaced(s[k..]);
    }
  }

  lemma PairUnfolds(s: string, c: char)
    requires s != ""
    ensures HasPair(s, c) <==> HasPair(s[1..], c) || (|s| >= 2 && s[0] == c && s[1] == c)
  {
    var t := s[1..];
    if HasPair(t, c) {
      var i :| 0 <= i < |t| - 1 && t[i] == c && t[i + 1] == c;
      assert s[i + 1] == c && s[i + 2] == c;
    }
    if HasPair(s, c) {
      var i :| 0 <= i < |s| - 1 && s[i] == c && s[i + 1] == c;
      assert i > 0 ==> t[i - 1] == c && t[i] == c;
    }
  }

  function Width(s: string): (k: nat) {
    if StartsDouble(s) then 2 else 1
  }

  lemma ReplacedUnfolds(s: string)
    requires s != ""
    ensures Replaced(s) == [s[0]] + Replaced(s[Width(s)..]) && Replaced(s)[1..] == Replaced(s[Width(s)..])
  {
  }

  lemma {:induction false} SameDotDot(s: string)
    ensures HasPair(Replaced(s), '.') <==> HasPair(s, '.')
  {
    if s != "" {
      var k := Width(s);
      SameDotDot(s[k..]);
      SameHeadSameChars(s[k..]);
      ReplacedUnfolds(s);
      PairUnfolds(Replaced(s), '.');
      PairUnfolds(s, '.');
      if k == 2 {
        PairUnfolds(s[1..], '.');
        assert s[1..][1..] == s[2..];
      }
    }
  }

  /** Validation gives the same verdict, the same error included, before and
      after a pass; so normalising a valid path never fails. */
  lemma NormaliseKeepsVerdict(s: string)
    ensures Validate(Replaced(s)) == Validate(s)
    ensures New(s).Ok? ==> Normalize(New(s).value) == Ok(FilePath(Replaced(s)))
  {
    SameHeadSameChars(s);
    SameDotDot(s);
  }

  predicate Windowsy(c: char) {
    c == '<' || c == '>' || c == ':' || c == '\"' || c == '|' || c == '?' || c == '*'
  }

  lemma ForbiddenExact(c: char)
    ensures c in FORBIDDEN <==> Windowsy(c)
  {
    var f := FORBIDDEN;
    assert f[0] == '<' && f[1] == '>' && f[2] == ':' && f[3] == '\"' && f[4] == '|' && f[5] == '?' && f[6] == '*';
  }

  /** Which paths are accepted, and what is said of the others. */
  lemma AcceptedIff(s: string)
    ensures New(s).Ok? <==>
      && s != ""
      && (forall i :: 0 <= i < |s| - 1 ==> !(s[i] == '.' && s[i + 1] == '.'))
      && (forall i :: 0 <= i < |s| ==> !Windowsy(s[i]))
    ensures New(s).Ok? ==> New(s).value.path == s
    ensures New(s) == Err(EmptyPath) <==> s == ""
    ensures New(s) == Err(DotDot) <==> exists i :: 0 <= i < |s| - 1 && s[i] == '.' && s[i + 1] == '.'
  {
    forall i | 0 <= i < |s|
      ensures s[i] in FORBIDDEN <==> Windowsy(s[i])
    {
      ForbiddenExact(s[i]);
    }
    if exists c :: c in FORBIDDEN && c in s {
      var c :| c in FORBIDDEN && c in s;
      var i :| 0 <= i < |s| && s[i] == c;
      assert Windowsy(s[i]);
    }
  }

  // ----------------------------------------------------- what one pass does

  function Slashes(n: nat): string {
    if n == 0 then "" else "/" + Slashes(n - 1)
  }

  lemma ReplacedDouble(rest: string)
    ensures Replaced("//" + rest) == "/" + Replaced(rest)
  {
    assert ("//" + rest)[2..] == rest;
  }

  lemma ReplacedSingle(c: char, rest: string)
    requires !StartsDouble([c] + rest)
    ensures Replaced([c] + rest) == [c] + Replaced(rest)
  {
    assert ([c] + rest)[1..] == rest;
  }

  lemma TwoMore(n: nat, rest: string)
    ensures Slashes(n + 2) + rest == "//" + (Slashes(n) + rest)
  {
    assert Slashes(n + 2) == "/" + ("/" + Slashes(n));
  }

  lemma OneMore(n: nat, rest: string)
    ensures Slashes(n + 1) + rest == "/" + (Slashes(n) + rest)
  {
  }

  lemma {:induction false} SlashesHalve(n: nat, rest: string)
    requires rest == "" || rest[0] != '/'
    ensures Replaced(Slashes(n) + rest) == Slashes((n + 1) / 2) + Replaced(rest)
  {
    if n == 0 {
      assert "" + rest == rest && "" + Replaced(rest) == Replaced(rest);
    } else if n == 1 {
      OneMore(0, rest);
      OneMore(0, Replaced(rest));
      assert "" + rest == rest && "" + Replaced(rest) == Replaced(rest);
      ReplacedSingle('/', rest);
    } else {
      SlashesHalve(n - 2, rest);
      TwoMore(n - 2, rest);
      ReplacedDouble(Slashes(n - 2) + rest);
      OneMore((n - 1) / 2, Replaced(rest));
      assert (n + 1) / 2 == (n - 1) / 2 + 1;
    }
  }

  /** Each maximal run of n slashes becomes ceil(n/2), independently of what
      stands before and after it. */
  lemma {:induction false} RunHalves(before: string, n: nat, after: string)
    requires before == "" || before[|before| - 1] != '/'
    requires after == "" || after[0] != '/'
    ensures Replaced(before + (Slashes(n) + after)) == Replaced(before) + (Slashes((n + 1) / 2) + Replaced(after))
    decreases |before|
  {
    var tail := Slashes(n) + after;
    SlashesHalve(n, after);
    if before == "" {
      assert before + tail == tail;
      assert "" + Replaced(tail) == Replaced(tail);
    } else {
      RunHalves(before[Width(before)..], n, after);
      Regroup(before, tail);
    }
  }

  lemma Regroup(before: string, tail: string)
    requires before != "" && before[|before| - 1] != '/'
    ensures Replaced(before) == [before[0]] + Replaced(before[Width(before)..])
    ensures Replaced(before + tail) == [before[0]] + Replaced(before[Width(before)..] + tail)
  {
    ReplacedUnfolds(before);
    var s := before + tail;
    assert Width(s) == Width(before);
    ReplacedUnfolds(s);
    assert s[Width(s)..] == before[Width(before)..] + tail;
  }

  /** A pass strictly shortens a path, unless it has no double slash and is
      left as it is. */
  lemma {:induction false} PassShortens(s: string)
    ensures HasPair(s, '/') ==> |Replaced(s)| < |s|
    ensures !HasPair(s, '/') ==> Replaced(s) == s
  {
    if s != "" {
      PassShortens(s[Width(s)..]);
      PairUnfolds(s, '/');
      ReplacedUnfolds(s);
      assert s == [s[0]] + s[1..];
    }
  }

  // -------------------------------------------------- towards the normal form

  /** The fully normalised path: every slash that follows a slash is dropped. */
  function Collapsed(s: string): string {
    if s == "" then ""
    else if StartsDouble(s) then Collapsed(s[1..])
    else [s[0]] + Collapsed(s[1..])
  }

  lemma {:induction false} PassKeepsCollapsed(s: string)
    ensures Collapsed(Replaced(s)) == Collapsed(s)
    ensures s == "" || Replaced(s) != ""
    decreases |s|
  {
    if s != "" {
      var k := Width(s);
      PassKeepsCollapsed(s[k..]);
      SameHeadSameChars(s[k..]);
      var rest := Replaced(s[k..]);
      assert Replaced(s) == [s[0]] + rest && Replaced(s)[1..] == rest;
      if k == 2 {
        assert s[1..][1..] == s[2..];
        assert StartsDouble(Replaced(s)) <==> StartsDouble(s[1..]);
      } else {
        assert !StartsDouble(Replaced(s));
      }
    }
  }

  lemma {:induction false} CollapsedWithoutDouble(s: string)
    requires !HasPair(s, '/')
    ensures Collapsed(s) == s
  {
    if s != "" {
      PairUnfolds(s, '/');
      CollapsedWithoutDouble(s[1..]);
      assert s == [s[0]] + s[1..];
    }
  }

  function Passes(k: nat, s: string): string {
    if k == 0 then s else Passes(k - 1, Replaced(s))
  }

  /** Normalising until nothing changes ends, at the collapsed path. */
  lemma {:induction false} PassesReachCollapsed(s: string) returns (k: nat)
    ensures Passes(k, s) == Collapsed(s) && k <= |s|
    decreases |s|
  {
    PassShortens(s);
    if HasPair(s, '/') {
      k := PassesReachCollapsed(Replaced(s));
      k := k + 1;
      PassKeepsCollapsed(s);
    } else {
      CollapsedWithoutDouble(s);
      k := 0;
    }
  }

  // ------------------------------------------------------ how many it takes

  function Lead(s: string): (n: nat)
    ensures n <= |s|
  {
    if s == "" || s[0] != '/' then 0 else 1 + Lead(s[1..])
  }

  function LongestRun(s: string): nat {
    if s == "" then 0
    else
      var rest := LongestRun(s[1..]);
      if rest < Lead(s) then Lead(s) else rest
  }

  lemma {:induction false} LeadHalves(s: string)
    ensures Lead(Replaced(s)) == (Lead(s) + 1) / 2
  {
    if s != "" && s[0] == '/' {
      var k := Width(s);
      LeadHalves(s[k..]);
      SameHeadSameChars(s[k..]);
      assert Replaced(s) == [s[0]] + Replaced(s[k..]);
      assert Replaced(s)[1..] == Replaced(s[k..]);
      if k == 2 {
        assert s[1..][1..] == s[2..];
      }
    }
  }

  lemma {:induction false} LongestRunHalves(s: string)
    ensures LongestRun(Replaced(s)) == (LongestRun(s) + 1) / 2
  {
    if s != "" {
      var k := Width(s);
      LongestRunHalves(s[k..]);
      LeadHalves(s);
      assert Replaced(s) == [s[0]] + Replaced(s[k..]);
      assert Replaced(s)[1..] == Replaced(s[k..]);
      if k == 2 {
        assert s[1..][1..] == s[2..];
        assert Lead(s[1..]) < Lead(s);
      }
    }
  }

  lemma {:induction false} LongestRunOne(s: string)
    ensures LongestRun(s) <= 1 <==> !HasPair(s, '/')
  {
    if s != "" {
      LongestRunOne(s[1..]);
      PairUnfolds(s, '/');
      if StartsDouble(s) {
        assert Lead(s[1..]) >= 1;
      }
    }
  }

  function Pow2(k: nat): (p: nat)
    ensures p >= 1
  {
    if k == 0 then 1 else 2 * Pow2(k - 1)
  }

  lemma {:induction false} CollapsedHasNoDouble(s: string)
    ensures !HasPair(Collapsed(s), '/') && (s != "" ==> Collapsed(s) != "" && Collapsed(s)[0] == s[0])
  {
    if s != "" {
      CollapsedHasNoDouble(s[1..]);
      PairUnfolds(Collapsed(s), '/');
    }
  }

  /** k passes normalise a path fully exactly if no run of slashes is longer
      than 2^k; in particular the single pass the code makes is enough, and
      normalising twice is the same as once, exactly if there is no "///". */
  lemma {:induction false} PassesEnoughIff(k: nat, s: string)
    ensures Passes(k, s) == Collapsed(s) <==> LongestRun(s) <= Pow2(k)
    decreases k
  {
    if k == 0 {
      LongestRunOne(s);
      CollapsedHasNoDouble(s);
      if !HasPair(s, '/') {
        CollapsedWithoutDouble(s);
      }
    } else {
      PassesEnoughIff(k - 1, Replaced(s));
      LongestRunHalves(s);
      PassKeepsCollapsed(s);
    }
  }

  lemma NormaliseIdempotentIff(s: string)
    ensures Replaced(Replaced(s)) == Replaced(s) <==> LongestRun(s) <= 2
  {
    LongestRunHalves(s);
    LongestRunOne(Replaced(s));
    PassShortens(Replaced(s));
  }
}
