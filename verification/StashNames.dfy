/** Names in the shared file store (bp_router/file_store.py, bp_router/filename_utils.py)
    and the LIKE patterns built from globs (bp_router/db/queries.py). */
module StashNames {
  import opened Options

  const PERSIST := "persist/"

  predicate Rejected(c: char) {
    c <= 0x1f as char || c == 0x7f as char || c == '"'
  }

  /** A flat file name: non-empty, no separator, no control character, no quote. */
  predicate ValidBare(name: string) {
    name != "" && '/' !in name && forall i :: 0 <= i < |name| ==> !Rejected(name[i])
  }

  datatype Parsed = Parsed(persistent: bool, bare: string)

  function SplitStashName(name: string): Option<Parsed> {
    var persistent := PERSIST <= name;
    var bare := if persistent then name[|PERSIST|..] else name;
    if ValidBare(bare) then Some(Parsed(persistent, bare)) else None
  }

  function DisplayName(persistent: bool, bare: string): string {
    if persistent then PERSIST + bare else bare
  }

  function ScopeFor(persistent: bool, session: string): string {
    if persistent then "persist" else "session:" + session
  }

  /** Displaying and parsing are inverse on every valid name, in both directions. */
  lemma DisplayRoundTrip(persistent: bool, bare: string, name: string)
    ensures ValidBare(bare) ==> SplitStashName(DisplayName(persistent, bare)) == Some(Parsed(persistent, bare))
    ensures SplitStashName(name).Some? ==>
              DisplayName(SplitStashName(name).value.persistent, SplitStashName(name).value.bare) == name
  {
    assert (PERSIST + bare)[|PERSIST|..] == bare;
    if PERSIST <= bare { assert bare[7] == '/'; }
  }

  lemma ScopesDiffer(session: string, other: string)
    ensures ScopeFor(true, session) != ScopeFor(false, other)
    ensures ScopeFor(false, session) == ScopeFor(false, other) <==> session == other
  {
    assert ScopeFor(true, session)[0] == 'p' && ScopeFor(false, other)[0] == 's';
    assert ("session:" + session)[8..] == session && ("session:" + other)[8..] == other;
  }

  // ------------------------------------------------------------ numbered candidates

  function DigitChar(d: nat): char
    requires d < 10
  {
    (48 + d) as char
  }

  function Decimal(n: nat): (r: string)
    ensures r != ""
  {
    if n < 10 then [DigitChar(n)] else Decimal(n / 10) + [DigitChar(n % 10)]
  }

  predicate IsDigit(c: char) {
    '0' <= c <= '9'
  }

  function Value(s: string): int {
    if s == "" then 0 else 10 * Value(s[..|s| - 1]) + (s[|s| - 1] as int - 48)
  }

  lemma {:induction false} DecimalValue(n: nat)
    ensures Value(Decimal(n)) == n
    ensures forall i :: 0 <= i < |Decimal(n)| ==> IsDigit(Decimal(n)[i])
  {
    if n < 10 {
      assert Value([DigitChar(n)]) == 10 * Value([]) + n by { assert [DigitChar(n)][..0] == []; }
    } else {
      DecimalValue(n / 10);
      var s := Decimal(n);
      assert s[..|s| - 1] == Decimal(n / 10);
    }
  }

  function LastDot(name: string): Option<nat> {
    if name == "" then None
    else if name[|name| - 1] == '.' then Some(|name| - 1)
    else LastDot(name[..|name| - 1])
  }

  lemma {:induction false} LastDotAt(name: string)
    ensures match LastDot(name)
            case None => '.' !in name
            case Some(i) => i < |name| && name[i] == '.' && '.' !in name[i + 1..]
  {
    if name != "" && name[|name| - 1] != '.' {
      var init := name[..|name| - 1];
      LastDotAt(init);
      assert name == init + [name[|name| - 1]];
      match LastDot(init) {
        case None =>
        case Some(i) => assert name[i + 1..] == init[i + 1..] + [name[|name| - 1]];
      }
    }
  }

  /** What stands before and after the counter. */
  function Stem(name: string): string {
    LastDotAt(name);
    (if LastDot(name).Some? then name[..LastDot(name).value] else name) + "_"
  }

  function Suffix(name: string): string {
    LastDotAt(name);
    if LastDot(name).Some? then "." + name[LastDot(name).value + 1..] else ""
  }

  /** _next_dedup_candidate: `report.pdf`, 1 gives `report_1.pdf`. */
  function Candidate(name: string, n: nat): string {
    Stem(name) + Decimal(n) + Suffix(name)
  }

  /** The counter can be read back out of the candidate, so candidates never collide with
      one another; nor with the name they were made from. */
  lemma CandidateInjective(name: string, n: nat, m: nat)
    ensures Candidate(name, n) == Candidate(name, m) ==> n == m
    ensures Candidate(name, n) != name
  {
    if Candidate(name, n) == Candidate(name, m) {
      var a, b := Stem(name), Suffix(name);
      assert Decimal(n) == Candidate(name, n)[|a|..|Candidate(name, n)| - |b|];
      assert Decimal(m) == Candidate(name, m)[|a|..|Candidate(name, m)| - |b|];
      DecimalValue(n);
      DecimalValue(m);
    }
    LastDotAt(name);
    assert |Stem(name)| + |Suffix(name)| == |name| + 1;
  }

  lemma {:induction false} LastDotOf(stem: string, ext: string)
    requires '.' !in ext
    ensures LastDot(stem + "." + ext) == Some(|stem|)
    decreases |ext|
  {
    var name := stem + "." + ext;
    if ext != "" {
      var init := ext[..|ext| - 1];
      assert name[..|name| - 1] == stem + "." + init;
      assert ext[|ext| - 1] in ext && name[|name| - 1] == ext[|ext| - 1];
      LastDotOf(stem, init);
    }
  }

  lemma {:induction false} NoLastDot(name: string)
    requires '.' !in name
    ensures LastDot(name) == None
  {
    LastDotAt(name);
  }

  /** The counter goes before the last extension, or at the end of a name without one. */
  lemma CandidateShape(stem: string, ext: string, n: nat)
    requires '.' !in ext
    ensures Candidate(stem + "." + ext, n) == stem + "_" + Decimal(n) + "." + ext
    ensures Candidate(ext, n) == ext + "_" + Decimal(n)
  {
    LastDotOf(stem, ext);
    NoLastDot(ext);
    assert (stem + "." + ext)[..|stem|] == stem && (stem + "." + ext)[|stem| + 1..] == ext;
  }

  /** A numbered candidate of a valid name is valid. */
  lemma CandidateValid(name: string, n: nat)
    requires ValidBare(name)
    ensures ValidBare(Candidate(name, n))
  {
    LastDotAt(name);
    DecimalValue(n);
    var c, a, d, b := Candidate(name, n), Stem(name), Decimal(n), Suffix(name);
    forall i | 0 <= i < |c| ensures !Rejected(c[i]) && c[i] != '/' {
      if i < |a| {
        assert c[i] == a[i];
        if i < |a| - 1 { assert a[i] == name[i]; }
      } else if i < |a| + |d| {
        assert c[i] == d[i - |a|] && IsDigit(d[i - |a|]);
      } else {
        var k := i - |a| - |d|;
        assert c[i] == b[k];
        if k > 0 { assert b[k] == name[LastDot(name).value + k]; }
      }
    }
  }

  // ------------------------------------------------------------ globs as LIKE patterns

  function ReplaceChar(s: string, c: char, text: string): string {
    if s == "" then "" else (if s[0] == c then text else [s[0]]) + ReplaceChar(s[1..], c, text)
  }

  /** _like_escape: the escape character first. */
  function LikeEscape(s: string): string {
    ReplaceChar(ReplaceChar(ReplaceChar(s, '\\', "\\\\"), '%', "\\%"), '_', "\\_")
  }

  /** The pattern that delete_file_names_glob sends. */
  function GlobToLike(glob: string): string {
    ReplaceChar(LikeEscape(glob), '*', "%")
  }

  /** SQL `LIKE pattern ESCAPE '\'`. */
  predicate LikeMatch(pattern: string, s: string)
    decreases |pattern|
  {
    if pattern == "" then s == ""
    else if pattern[0] == '\\' then
      |pattern| >= 2 && s != "" && s[0] == pattern[1] && LikeMatch(pattern[2..], s[1..])
    else if pattern[0] == '%' then exists k :: 0 <= k <= |s| && LikeMatch(pattern[1..], s[k..])
    else s != "" && (pattern[0] == '_' || s[0] == pattern[0]) && LikeMatch(pattern[1..], s[1..])
  }

  /** `*` stands for any run of characters; everything else for itself. */
  predicate GlobMatch(glob: string, s: string)
    decreases |glob|
  {
    if glob == "" then s == ""
    else if glob[0] == '*' then exists k :: 0 <= k <= |s| && GlobMatch(glob[1..], s[k..])
    else s != "" && s[0] == glob[0] && GlobMatch(glob[1..], s[1..])
  }

  lemma {:induction false} ReplaceAppend(s: string, t: string, c: char, r: string)
    ensures ReplaceChar(s + t, c, r) == ReplaceChar(s, c, r) + ReplaceChar(t, c, r)
  {
    if s == "" {
      assert s + t == t;
    } else {
      assert (s + t)[1..] == s[1..] + t;
      ReplaceAppend(s[1..], t, c, r);
    }
  }

  /** How one character of a glob is sent. */
  function Sent(c: char): string {
    if c == '*' then "%" else if c == '\\' || c == '%' || c == '_' then ['\\', c] else [c]
  }

  lemma ReplaceOne(c: char, d: char, r: string)
    ensures ReplaceChar([c], d, r) == if c == d then r else [c]
  {
    assert [c][1..] == "" && ReplaceChar("", d, r) == "";
  }

  lemma ReplaceTwo(a: char, b: char, d: char, r: string)
    ensures ReplaceChar([a, b], d, r) == (if a == d then r else [a]) + (if b == d then r else [b])
  {
    assert [a, b] == [a] + [b];
    ReplaceAppend([a], [b], d, r);
    ReplaceOne(a, d, r);
    ReplaceOne(b, d, r);
  }

  lemma SentIsTranslation(c: char)
    ensures GlobToLike([c]) == Sent(c)
  {
    ReplaceOne(c, '\\', "\\\\");
    ReplaceOne(c, '%', "\\%");
    ReplaceOne(c, '_', "\\_");
    ReplaceOne(c, '*', "%");
    ReplaceTwo('\\', '\\', '%', "\\%");
    ReplaceTwo('\\', '\\', '_', "\\_");
    ReplaceTwo('\\', '\\', '*', "%");
    ReplaceTwo('\\', '%', '_', "\\_");
    ReplaceTwo('\\', '%', '*', "%");
    ReplaceTwo('\\', '_', '*', "%");
  }

  lemma TranslationAppends(c: char, rest: string)
    ensures GlobToLike([c] + rest) == Sent(c) + GlobToLike(rest)
  {
    SentIsTranslation(c);
    ReplaceAppend([c], rest, '\\', "\\\\");
    ReplaceAppend(ReplaceChar([c], '\\', "\\\\"), ReplaceChar(rest, '\\', "\\\\"), '%', "\\%");
    var one, two := ReplaceChar(ReplaceChar([c], '\\', "\\\\"), '%', "\\%"), ReplaceChar(ReplaceChar(rest, '\\', "\\\\"), '%', "\\%");
    ReplaceAppend(one, two, '_', "\\_");
    ReplaceAppend(LikeEscape([c]), LikeEscape(rest), '*', "%");
  }

  /** The database deletes exactly the names the glob stands for: `%`, `_` and `\` in it
      are literal. */
  lemma {:induction false} GlobMeansGlob(glob: string, s: string)
    ensures LikeMatch(GlobToLike(glob), s) <==> GlobMatch(glob, s)
    decreases |glob|
  {
    if glob == "" {
    } else {
      assert glob == [glob[0]] + glob[1..];
      TranslationAppends(glob[0], glob[1..]);
      var like, rest := GlobToLike(glob), GlobToLike(glob[1..]);
      if glob[0] == '*' {
        assert like[0] == '%' && like[1..] == rest;
        forall k | 0 <= k <= |s| ensures LikeMatch(rest, s[k..]) <==> GlobMatch(glob[1..], s[k..]) {
          GlobMeansGlob(glob[1..], s[k..]);
        }
      } else if |Sent(glob[0])| == 2 {
        assert like[0] == '\\' && like[1] == glob[0] && like[2..] == rest;
        if s != "" { GlobMeansGlob(glob[1..], s[1..]); }
      } else {
        assert like[0] == glob[0] && like[1..] == rest;
        if s != "" { GlobMeansGlob(glob[1..], s[1..]); }
      }
    }
  }

  /** A glob without a star stands for itself only. */
  lemma {:induction false} GlobLiteral(glob: string, s: string)
    requires '*' !in glob
    ensures GlobMatch(glob, s) <==> glob == s
    decreases |glob|
  {
    if glob != "" {
      assert glob[0] in glob && glob == [glob[0]] + glob[1..];
      if s != "" {
        assert s == [s[0]] + s[1..];
        GlobLiteral(glob[1..], s[1..]);
      }
    }
  }
}
