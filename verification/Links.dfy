/** Slugs: readable identifiers made from an id and a title. */
module Links {
  import opened Wrappers

  /** The Unicode tables and case mapping of the standard library. */
  datatype Unicode = Unicode(
    isWhitespace: char -> bool,
    isAlphanumeric: char -> bool,
    isNumeric: char -> bool,
    toLowercase: string -> string,
    utf8Length: char -> nat)

  /** What slugs need to know of those tables. */
  ghost predicate Standard(u: Unicode) {
    && (forall c :: 1 <= u.utf8Length(c) <= 4)
    && (forall c :: c in "-—|:/" ==> !u.isAlphanumeric(c) && u.utf8Length(c) == if c == '—' then 3 else 1)
    && (forall p :: IsSubtitleSeparator(p) ==> u.toLowercase(p) == p)
  }

  ghost predicate AsciiNumerals(u: Unicode) {
    (forall c :: '0' <= c <= '9' ==> u.isNumeric(c)) && !u.isNumeric('-')
  }

  const SLUG_MAX_LENGTH := 40
  const I64_MIN := -0x8000_0000_0000_0000
  const I64_MAX := 0x7fff_ffff_ffff_ffff

  // ---- Words -------------------------------------------------------------

  predicate IsSubtitleSeparator(part: string) {
    part in ["-", "—", "|", ":", "//"]
  }

  predicate EndsWithColon(part: string) {
    part != "" && part[|part| - 1] == ':'
  }

  /** The pieces between white space characters, empty ones included. */
  function Split(u: Unicode, s: string): (parts: seq<string>)
    ensures parts != []
  {
    if s == "" then [""]
    else
      var rest := Split(u, s[1..]);
      if u.isWhitespace(s[0]) then [""] + rest else [[s[0]] + rest[0]] + rest[1..]
  }

  function Filter(keep: char -> bool, s: string): (r: string)
    ensures forall c <- r :: keep(c)
  {
    if s == "" then "" else (if keep(s[0]) then [s[0]] else "") + Filter(keep, s[1..])
  }

  function Sanitize(u: Unicode, part: string): string {
    Filter(u.isAlphanumeric, u.toLowercase(part))
  }

  function ByteLength(u: Unicode, s: string): nat {
    if s == "" then 0 else u.utf8Length(s[0]) + ByteLength(u, s[1..])
  }

  function Truncate(s: string): string {
    if |s| <= SLUG_MAX_LENGTH then s else s[..SLUG_MAX_LENGTH]
  }

  // ---- The loop ----------------------------------------------------------

  /** What the loop returns from any point on. */
  function SlugFrom(u: Unicode, parts: seq<string>, slug: Option<string>, lastLoop: bool): Option<string> {
    if parts == [] || (IsSubtitleSeparator(parts[0]) && slug.Some?) then slug
    else
      var last := lastLoop || EndsWithColon(parts[0]);
      var word := Sanitize(u, parts[0]);
      if word == "" then SlugFrom(u, parts[1..], slug, last)
      else if slug.Some? && ByteLength(u, slug.value) + 1 + ByteLength(u, word) > SLUG_MAX_LENGTH then slug
      else if slug.None? && ByteLength(u, word) >= SLUG_MAX_LENGTH then Some(Truncate(word))
      else
        var next := if slug.Some? then slug.value + "-" + word else word;
        if last then Some(next) else SlugFrom(u, parts[1..], Some(next), last)
  }

  method Slug(u: Unicode, s: string) returns (r: Option<string>)
    ensures r == SlugFrom(u, Split(u, s), None, false)
  {
    var lastLoop := false;
    var parts := Split(u, s);
    var slug: Option<string> := None;
    for i := 0 to |parts|
      invariant SlugFrom(u, parts[i..], slug, lastLoop) == SlugFrom(u, parts, None, false)
    {
      var part := parts[i];
      assert parts[i..][1..] == parts[i + 1..];
      if IsSubtitleSeparator(part) && slug.Some? {
        return slug;
      }
      if EndsWithColon(part) {
        lastLoop := true;
      }
      var word := Sanitize(u, part);
      if word == "" {
        continue;
      }
      if slug.Some? {
        if ByteLength(u, slug.value) + 1 + ByteLength(u, word) > SLUG_MAX_LENGTH {
          return slug;
        }
        slug := Some(slug.value + "-" + word);
      } else {
        if ByteLength(u, word) >= SLUG_MAX_LENGTH {
          return Some(Truncate(word));
        }
        slug := Some(word);
      }
      if lastLoop {
        return slug;
      }
    }
    return slug;
  }

  // ---- What a slug is -----------------------------------------------------

  function Join(words: seq<string>): string {
    if words == [] then ""
    else if |words| == 1 then words[0]
    else Join(words[..|words| - 1]) + "-" + words[|words| - 1]
  }

  /** The usable words of the title proper. It ends before a separator standing
      alone after some word, or with the first word at or after a trailing colon. */
  function TitleWords(u: Unicode, parts: seq<string>, started: bool, lastLoop: bool): seq<string> {
    if parts == [] || (IsSubtitleSeparator(parts[0]) && started) then []
    else
      var last := lastLoop || EndsWithColon(parts[0]);
      var word := Sanitize(u, parts[0]);
      if word == "" then TitleWords(u, parts[1..], started, last)
      else if last then [word]
      else [word] + TitleWords(u, parts[1..], true, false)
  }

  function Title(u: Unicode, s: string): seq<string> {
    TitleWords(u, Split(u, s), false, false)
  }

  /** Joins as many more words as fit. */
  function Fit(u: Unicode, slug: string, words: seq<string>): string
    decreases words
  {
    if words == [] || ByteLength(u, slug) + 1 + ByteLength(u, words[0]) > SLUG_MAX_LENGTH then slug
    else Fit(u, slug + "-" + words[0], words[1..])
  }

  function SlugOfWords(u: Unicode, words: seq<string>): Option<string> {
    if words == [] then None
    else if ByteLength(u, words[0]) >= SLUG_MAX_LENGTH then Some(Truncate(words[0]))
    else Some(Fit(u, words[0], words[1..]))
  }

  lemma {:induction false} LoopFitsWords(u: Unicode, parts: seq<string>, slug: string, lastLoop: bool)
    ensures SlugFrom(u, parts, Some(slug), lastLoop) == Some(Fit(u, slug, TitleWords(u, parts, true, lastLoop)))
    decreases |parts|
  {
    if parts != [] && !IsSubtitleSeparator(parts[0]) {
      var last, word := lastLoop || EndsWithColon(parts[0]), Sanitize(u, parts[0]);
      if word == "" {
        LoopFitsWords(u, parts[1..], slug, last);
      } else {
        var more := if last then [] else TitleWords(u, parts[1..], true, false);
        assert TitleWords(u, parts, true, lastLoop) == [word] + more;
        assert ([word] + more)[1..] == more;
        if !last {
          LoopFitsWords(u, parts[1..], slug + "-" + word, false);
        }
      }
    }
  }

  /** The single loop cuts the title first and fits its words second. */
  lemma {:induction false} LoopIsCutThenFit(u: Unicode, parts: seq<string>, lastLoop: bool)
    ensures SlugFrom(u, parts, None, lastLoop) == SlugOfWords(u, TitleWords(u, parts, false, lastLoop))
    decreases |parts|
  {
    if parts != [] {
      var last, word := lastLoop || EndsWithColon(parts[0]), Sanitize(u, parts[0]);
      if word == "" {
        LoopIsCutThenFit(u, parts[1..], last);
      } else {
        var more := if last then [] else TitleWords(u, parts[1..], true, false);
        assert TitleWords(u, parts, false, lastLoop) == [word] + more;
        assert ([word] + more)[1..] == more;
        if !last {
          LoopFitsWords(u, parts[1..], word, false);
        }
      }
    }
  }

  lemma {:induction false} ByteLengthConcat(u: Unicode, a: string, b: string)
    ensures ByteLength(u, a + b) == ByteLength(u, a) + ByteLength(u, b)
  {
    if a == "" {
      assert a + b == b;
    } else {
      assert (a + b)[1..] == a[1..] + b;
      ByteLengthConcat(u, a[1..], b);
    }
  }

  lemma {:induction false} CharsFitInBytes(u: Unicode, s: string)
    requires Standard(u)
    ensures |s| <= ByteLength(u, s)
  {
    if s != "" {
      CharsFitInBytes(u, s[1..]);
    }
  }

  /** `k` words are joined, and no more would fit. */
  ghost predicate LongestFit(u: Unicode, words: seq<string>, k: nat) {
    && 1 <= k <= |words|
    && ByteLength(u, Join(words[..k])) <= 40
    && (k == |words| || ByteLength(u, Join(words[..k + 1])) > 40)
  }

  lemma {:induction false} FitIsLongest(u: Unicode, words: seq<string>, j: nat) returns (k: nat)
    requires Standard(u)
    requires 1 <= j <= |words| && ByteLength(u, Join(words[..j])) <= 40
    ensures LongestFit(u, words, k) && Fit(u, Join(words[..j]), words[j..]) == Join(words[..k])
    decreases |words| - j
  {
    var slug := Join(words[..j]);
    if j < |words| {
      assert words[..j + 1][..j] == words[..j];
      assert Join(words[..j + 1]) == slug + "-" + words[j];
      ByteLengthConcat(u, slug + "-", words[j]);
      ByteLengthConcat(u, slug, "-");
      assert ByteLength(u, "-") == 1;
    }
    if j == |words| || ByteLength(u, slug) + 1 + ByteLength(u, words[j]) > SLUG_MAX_LENGTH {
      k := j;
    } else {
      k := FitIsLongest(u, words, j + 1);
      assert words[j..][1..] == words[j + 1..];
    }
  }

  /** A word a slug may be made of. */
  predicate Word(u: Unicode, w: string) {
    w != "" && forall c <- w :: u.isAlphanumeric(c)
  }

  lemma {:induction false} TitleWordsAreWords(u: Unicode, parts: seq<string>, started: bool, lastLoop: bool)
    ensures forall w <- TitleWords(u, parts, started, lastLoop) :: Word(u, w)
    decreases |parts|
  {
    if parts != [] && !(IsSubtitleSeparator(parts[0]) && started) {
      var last, word := lastLoop || EndsWithColon(parts[0]), Sanitize(u, parts[0]);
      if word == "" {
        TitleWordsAreWords(u, parts[1..], started, last);
      } else if !last {
        TitleWordsAreWords(u, parts[1..], true, false);
      }
    }
  }

  /** Main result: a slug is the longest prefix of the title's words that fits,
      hyphenated, or the start of a single overlong word. */
  lemma SlugIsLongestFit(u: Unicode, s: string) returns (k: nat)
    requires Standard(u)
    ensures var words, slug := Title(u, s), SlugFrom(u, Split(u, s), None, false);
            && (forall w <- words :: Word(u, w))
            && (slug.None? <==> words == [])
            && (slug.Some? ==> 1 <= |slug.value| <= 40)
            && (slug.Some? && ByteLength(u, words[0]) >= 40 ==>
                  slug.value == if |words[0]| <= 40 then words[0] else words[0][..40])
            && (slug.Some? && ByteLength(u, words[0]) < 40 ==>
                  LongestFit(u, words, k) && slug.value == Join(words[..k]))
  {
    var parts := Split(u, s);
    var words := Title(u, s);
    LoopIsCutThenFit(u, parts, false);
    TitleWordsAreWords(u, parts, false, false);
    k := 0;
    if words != [] {
      assert Word(u, words[0]);
      if ByteLength(u, words[0]) < SLUG_MAX_LENGTH {
        assert words[..1] == [words[0]];
        k := FitIsLongest(u, words, 1);
        var slug := Join(words[..k]);
        CharsFitInBytes(u, slug);
        JoinNonEmpty(words[..k]);
      }
    }
  }

  lemma {:induction false} JoinNonEmpty(words: seq<string>)
    requires words != [] && words[0] != ""
    ensures Join(words) != ""
  {
    if |words| > 1 {
      assert Join(words)[|Join(words[..|words| - 1])|] == '-';
    }
  }

  /** There is a slug exactly when some piece of the title has a usable character. */
  lemma {:induction false} NoSlugWithoutWords(u: Unicode, parts: seq<string>, lastLoop: bool)
    ensures SlugFrom(u, parts, None, lastLoop).None? <==> forall p <- parts :: Sanitize(u, p) == ""
    decreases |parts|
  {
    LoopIsCutThenFit(u, parts, lastLoop);
    if parts != [] && Sanitize(u, parts[0]) == "" {
      NoSlugWithoutWords(u, parts[1..], lastLoop || EndsWithColon(parts[0]));
      assert parts == [parts[0]] + parts[1..];
    }
  }

  // ---- Where the title ends -------------------------------------------------

  /** The words of some pieces, in order. */
  function WordsOf(u: Unicode, parts: seq<string>): seq<string> {
    if parts == [] then []
    else (if Sanitize(u, parts[0]) == "" then [] else [Sanitize(u, parts[0])]) + WordsOf(u, parts[1..])
  }

  predicate HasWord(u: Unicode, parts: seq<string>, i: nat) {
    i < |parts| && Sanitize(u, parts[i]) != ""
  }

  /** A separator standing alone after some word. */
  ghost predicate Separates(u: Unicode, parts: seq<string>, i: nat, started: bool) {
    && i < |parts|
    && (parts[i] == "-" || parts[i] == "—" || parts[i] == "|" || parts[i] == ":" || parts[i] == "//")
    && (started || exists j :: 0 <= j < i && HasWord(u, parts, j))
  }

  predicate HasColon(parts: seq<string>, i: nat) {
    i < |parts| && |parts[i]| > 0 && parts[i][|parts[i]| - 1] == ':'
  }

  /** A word at or after a piece that ends with a colon. */
  ghost predicate Closes(u: Unicode, parts: seq<string>, i: nat, colon: bool) {
    HasWord(u, parts, i) && (colon || exists j :: 0 <= j <= i && HasColon(parts, j))
  }

  /** The title proper is the first `n` pieces: it ends before the first piece that
      separates or after the first that closes, whichever comes first. */
  ghost predicate EndsTitle(u: Unicode, parts: seq<string>, n: nat, started: bool, colon: bool) {
    && n <= |parts|
    && (forall i :: 0 <= i < n ==> !Separates(u, parts, i, started))
    && (forall i :: 0 <= i < n - 1 ==> !Closes(u, parts, i, colon))
    && (n == |parts| || Separates(u, parts, n, started) || (n > 0 && Closes(u, parts, n - 1, colon)))
  }

  lemma ShiftedPiece(u: Unicode, parts: seq<string>, i: nat, started: bool, colon: bool)
    requires parts != []
    ensures Separates(u, parts, i + 1, started) <==> Separates(u, parts[1..], i, started || HasWord(u, parts, 0))
    ensures Closes(u, parts, i + 1, colon) <==> Closes(u, parts[1..], i, colon || HasColon(parts, 0))
  {
    var rest := parts[1..];
    assert forall j: nat :: HasWord(u, rest, j) == HasWord(u, parts, j + 1);
    assert forall j: nat :: HasColon(rest, j) == HasColon(parts, j + 1);
    if j :| 0 <= j < i + 1 && HasWord(u, parts, j) && j > 0 {
      assert HasWord(u, rest, j - 1);
    }
    if j :| 0 <= j <= i + 1 && HasColon(parts, j) && j > 0 {
      assert HasColon(rest, j - 1);
    }
    if j :| 0 <= j < i && HasWord(u, rest, j) {
      assert HasWord(u, parts, j + 1);
    }
    if j :| 0 <= j <= i && HasColon(rest, j) {
      assert HasColon(parts, j + 1);
    }
  }

  lemma EndsLater(u: Unicode, parts: seq<string>, n: nat, started: bool, colon: bool)
    requires parts != [] && !Separates(u, parts, 0, started) && !Closes(u, parts, 0, colon)
    requires EndsTitle(u, parts[1..], n, started || HasWord(u, parts, 0), colon || HasColon(parts, 0))
    ensures EndsTitle(u, parts, n + 1, started, colon)
  {
    var rest := parts[1..];
    forall i | 0 < i < n + 1 ensures !Separates(u, parts, i, started) {
      ShiftedPiece(u, parts, i - 1, started, colon);
    }
    forall i | 0 < i < n ensures !Closes(u, parts, i, colon) {
      ShiftedPiece(u, parts, i - 1, started, colon);
    }
    ShiftedPiece(u, parts, n, started, colon);
    if n > 0 {
      ShiftedPiece(u, parts, n - 1, started, colon);
    }
  }

  lemma FirstPiece(u: Unicode, parts: seq<string>, started: bool, colon: bool)
    requires parts != []
    ensures Separates(u, parts, 0, started) <==> IsSubtitleSeparator(parts[0]) && started
    ensures HasWord(u, parts, 0) <==> Sanitize(u, parts[0]) != ""
    ensures HasColon(parts, 0) <==> EndsWithColon(parts[0])
    ensures Closes(u, parts, 0, colon) <==> HasWord(u, parts, 0) && (colon || HasColon(parts, 0))
  {
  }

  lemma NothingLeft(u: Unicode, parts: seq<string>, started: bool, colon: bool)
    requires parts == [] || Separates(u, parts, 0, started)
    ensures EndsTitle(u, parts, 0, started, colon)
  {
  }

  lemma OneWordLeft(u: Unicode, parts: seq<string>, started: bool, colon: bool)
    requires parts != [] && !Separates(u, parts, 0, started) && Closes(u, parts, 0, colon)
    ensures EndsTitle(u, parts, 1, started, colon)
    ensures WordsOf(u, parts[..1]) == [Sanitize(u, parts[0])]
  {
    assert parts[..1] == [parts[0]] && parts[..1][1..] == [];
  }

  lemma WordsStep(u: Unicode, parts: seq<string>, n: nat)
    requires n < |parts|
    ensures WordsOf(u, parts[..n + 1])
         == (if Sanitize(u, parts[0]) == "" then [] else [Sanitize(u, parts[0])]) + WordsOf(u, parts[1..][..n])
  {
    assert parts[..n + 1][1..] == parts[1..][..n];
  }

  lemma {:induction false} TitleEndsFrom(u: Unicode, parts: seq<string>, started: bool, colon: bool) returns (n: nat)
    ensures EndsTitle(u, parts, n, started, colon)
    ensures TitleWords(u, parts, started, colon) == WordsOf(u, parts[..n])
    decreases |parts|
  {
    n := 0;
    if parts == [] {
      NothingLeft(u, parts, started, colon);
      return;
    }
    FirstPiece(u, parts, started, colon);
    if IsSubtitleSeparator(parts[0]) && started {
      NothingLeft(u, parts, started, colon);
    } else if Closes(u, parts, 0, colon) {
      n := 1;
      OneWordLeft(u, parts, started, colon);
    } else {
      var m := TitleEndsFrom(u, parts[1..], started || HasWord(u, parts, 0), colon || HasColon(parts, 0));
      EndsLater(u, parts, m, started, colon);
      WordsStep(u, parts, m);
      n := m + 1;
    }
  }

  /** Main result: the title's words are those of the pieces before the first of "-",
      "—", "|", ":" and "//" to stand alone after a word, and up to the first word at
      or after a trailing colon. */
  lemma TitleEnds(u: Unicode, s: string) returns (n: nat)
    ensures EndsTitle(u, Split(u, s), n, false, false)
    ensures Title(u, s) == WordsOf(u, Split(u, s)[..n])
  {
    n := TitleEndsFrom(u, Split(u, s), false, false);
  }

  function Interleave(parts: seq<string>, gaps: string): string
    requires |parts| == |gaps| + 1
  {
    if gaps == "" then parts[0] else parts[0] + [gaps[0]] + Interleave(parts[1..], gaps[1..])
  }

  lemma InterleaveGap(parts: seq<string>, gap: char, gaps: string)
    requires |parts| == |gaps| + 1
    ensures Interleave([""] + parts, [gap] + gaps) == [gap] + Interleave(parts, gaps)
  {
    assert ([""] + parts)[1..] == parts && ([gap] + gaps)[1..] == gaps;
  }

  lemma InterleaveAhead(parts: seq<string>, c: char, gaps: string)
    requires |parts| == |gaps| + 1
    ensures Interleave([[c] + parts[0]] + parts[1..], gaps) == [c] + Interleave(parts, gaps)
  {
    assert ([[c] + parts[0]] + parts[1..])[1..] == parts[1..];
    if gaps != "" {
      assert [c] + parts[0] + [gaps[0]] + Interleave(parts[1..], gaps[1..])
          == [c] + (parts[0] + [gaps[0]] + Interleave(parts[1..], gaps[1..]));
    }
  }

  predicate NoSpace(u: Unicode, part: string) {
    forall c <- part :: !u.isWhitespace(c)
  }

  /** The pieces hold no white space, and with it between them they are the string. */
  lemma {:induction false} SplitIsUndone(u: Unicode, s: string)
    ensures forall p <- Split(u, s) :: NoSpace(u, p)
    ensures |Split(u, s)| == |Filter(u.isWhitespace, s)| + 1
    ensures Interleave(Split(u, s), Filter(u.isWhitespace, s)) == s
  {
    if s != "" {
      SplitIsUndone(u, s[1..]);
      var parts, gaps := Split(u, s[1..]), Filter(u.isWhitespace, s[1..]);
      assert s == [s[0]] + s[1..];
      if u.isWhitespace(s[0]) {
        InterleaveGap(parts, s[0], gaps);
      } else {
        InterleaveAhead(parts, s[0], gaps);
        assert Filter(u.isWhitespace, s) == gaps;
        assert parts[0] in parts && NoSpace(u, [s[0]] + parts[0]);
      }
    }
  }

  /** Filtering goes character by character. */
  lemma {:induction false} FilterSnoc(keep: char -> bool, s: string, c: char)
    ensures Filter(keep, s + [c]) == Filter(keep, s) + if keep(c) then [c] else ""
  {
    if s == "" {
      assert s + [c] == [c];
    } else {
      assert (s + [c])[1..] == s[1..] + [c];
      FilterSnoc(keep, s[1..], c);
    }
  }

  /** A piece's word has the alphanumeric characters of the piece in lower case. */
  lemma SanitizeFilters(u: Unicode, part: string, before: string, c: char)
    requires u.toLowercase(part) == before + [c]
    ensures Sanitize(u, part) == Filter(u.isAlphanumeric, before) + if u.isAlphanumeric(c) then [c] else ""
  {
    FilterSnoc(u.isAlphanumeric, before, c);
  }

  // ---- Leading separators --------------------------------------------------

  /** The cut the source's comment describes: a separator that starts off the
      string is passed over and changes nothing. */
  function IntendedWords(u: Unicode, parts: seq<string>, lastLoop: bool): seq<string> {
    if parts == [] then []
    else if IsSubtitleSeparator(parts[0]) then IntendedWords(u, parts[1..], lastLoop)
    else
      var last := lastLoop || EndsWithColon(parts[0]);
      var word := Sanitize(u, parts[0]);
      if word == "" then IntendedWords(u, parts[1..], last)
      else if last then [word]
      else [word] + TitleWords(u, parts[1..], true, false)
  }

  /** A bare colon stands before the first word. */
  predicate ColonLeads(u: Unicode, parts: seq<string>) {
    parts != [] && Sanitize(u, parts[0]) == "" && (parts[0] == ":" || ColonLeads(u, parts[1..]))
  }

  lemma SeparatorHasNoWord(u: Unicode, part: string)
    requires Standard(u) && IsSubtitleSeparator(part)
    ensures Sanitize(u, part) == ""
    ensures EndsWithColon(part) <==> part == ":"
  {
    assert Sanitize(u, part) == Filter(u.isAlphanumeric, part);
    assert forall c <- part :: c in "-—|:/";
    assert |part| <= 2;
    if |part| == 2 {
      assert Filter(u.isAlphanumeric, part[1..]) == "";
    }
  }

  lemma {:induction false} ColonCutsTitle(u: Unicode, parts: seq<string>, lastLoop: bool)
    requires Standard(u)
    ensures var intended := IntendedWords(u, parts, lastLoop);
            TitleWords(u, parts, false, lastLoop)
            == if intended != [] && ColonLeads(u, parts) then intended[..1] else intended
    decreases |parts|
  {
    if parts != [] {
      if IsSubtitleSeparator(parts[0]) {
        SeparatorHasNoWord(u, parts[0]);
        ColonCutsTitle(u, parts[1..], lastLoop);
        if parts[0] == ":" {
          LastLoopCuts(u, parts[1..], lastLoop);
        }
      } else if Sanitize(u, parts[0]) == "" {
        ColonCutsTitle(u, parts[1..], lastLoop || EndsWithColon(parts[0]));
      }
    }
  }

  lemma {:induction false} LastLoopCuts(u: Unicode, parts: seq<string>, lastLoop: bool)
    requires Standard(u)
    ensures var intended := IntendedWords(u, parts, lastLoop);
            TitleWords(u, parts, false, true) == if intended == [] then [] else intended[..1]
    decreases |parts|
  {
    if parts != [] {
      if IsSubtitleSeparator(parts[0]) {
        SeparatorHasNoWord(u, parts[0]);
        LastLoopCuts(u, parts[1..], lastLoop);
      } else if Sanitize(u, parts[0]) == "" {
        LastLoopCuts(u, parts[1..], lastLoop || EndsWithColon(parts[0]));
      }
    }
  }

  /** Main result: the shipped slug is the described one unless a bare colon
      leads and a second word would have fitted. */
  lemma LeadingColonExactly(u: Unicode, parts: seq<string>)
    requires Standard(u)
    ensures var intended := IntendedWords(u, parts, false);
            SlugFrom(u, parts, None, false) == SlugOfWords(u, intended)
            <==> !(&& ColonLeads(u, parts)
                   && |intended| >= 2
                   && ByteLength(u, intended[0]) < SLUG_MAX_LENGTH
                   && ByteLength(u, intended[0]) + 1 + ByteLength(u, intended[1]) <= SLUG_MAX_LENGTH)
  {
    var intended := IntendedWords(u, parts, false);
    LoopIsCutThenFit(u, parts, false);
    ColonCutsTitle(u, parts, false);
    if ColonLeads(u, parts) && |intended| >= 2 {
      FitOnlyGrows(u, intended[0] + "-" + intended[1], intended[1..][1..]);
    }
  }

  /** Plain ASCII tables, enough to exhibit the gap. */
  function Ascii(): Unicode {
    Unicode(c => c == ' ', c => 'a' <= c <= 'z' || '0' <= c <= '9', c => '0' <= c <= '9',
            s => s, c => if c == '—' then 3 else 1)
  }

  lemma AsciiIsStandard()
    ensures Standard(Ascii())
  {
  }

  /** After a leading colon the second word is lost, although the separator was
      to be passed over: ": a b" gives "a" instead of "a-b". */
  lemma LeadingColonExample()
    ensures var u := Ascii();
            var parts := Split(u, ": a b");
            && SlugFrom(u, parts, None, false) == Some("a")
            && SlugOfWords(u, IntendedWords(u, parts, false)) == Some("a-b")
  {
    var u, parts := Ascii(), [":", "a", "b"];
    ExampleParts();
    AsciiIsStandard();
    ExampleWords();
    LoopIsCutThenFit(u, parts, false);
    ColonCutsTitle(u, parts, false);
    ExampleSlug();
  }

  lemma ExampleParts()
    ensures Split(Ascii(), ": a b") == [":", "a", "b"]
  {
    var u := Ascii();
    SplitAhead(u, 'b', "");
    assert ['b'] + "" == "b" && Split(u, "b") == ["b"];
    SplitAhead(u, ' ', "b");
    assert [' '] + "b" == " b" && Split(u, " b") == ["", "b"];
    SplitAhead(u, 'a', " b");
    assert ['a'] + "" == "a" && ["a"] + ["b"] == ["a", "b"];
    assert ['a'] + " b" == "a b" && ["", "b"][1..] == ["b"] && Split(u, "a b") == ["a", "b"];
    SplitAhead(u, ' ', "a b");
    assert [' '] + "a b" == " a b" && Split(u, " a b") == ["", "a", "b"];
    SplitAhead(u, ':', " a b");
    assert [':'] + "" == ":" && [":"] + ["a", "b"] == [":", "a", "b"];
    assert [':'] + " a b" == ": a b" && ["", "a", "b"][1..] == ["a", "b"];
  }

  /** Splits off one character ahead of a string. */
  lemma SplitAhead(u: Unicode, c: char, rest: string)
    ensures Split(u, [c] + rest) ==
            if u.isWhitespace(c) then [""] + Split(u, rest) else [[c] + Split(u, rest)[0]] + Split(u, rest)[1..]
  {
    assert ([c] + rest)[1..] == rest;
  }

  lemma ExampleWords()
    ensures var u, parts := Ascii(), [":", "a", "b"];
            IntendedWords(u, parts, false) == ["a", "b"] && ColonLeads(u, parts)
  {
    var u, parts := Ascii(), [":", "a", "b"];
    assert Sanitize(u, ":") == "" && Sanitize(u, "a") == "a" && Sanitize(u, "b") == "b";
    assert TitleWords(u, ["b"], true, false) == ["b"];
    assert parts[1..] == ["a", "b"] && ["a", "b"][1..] == ["b"];
    assert IntendedWords(u, parts, false) == IntendedWords(u, ["a", "b"], false) == ["a", "b"];
  }

  lemma ExampleSlug()
    ensures SlugOfWords(Ascii(), ["a"]) == Some("a")
    ensures SlugOfWords(Ascii(), ["a", "b"]) == Some("a-b")
  {
    var u := Ascii();
    assert ByteLength(u, "a") == 1 && ByteLength(u, "b") == 1;
    assert Fit(u, "a", ["b"]) == Fit(u, "a-b", []) == "a-b";
  }

  lemma {:induction false} FitOnlyGrows(u: Unicode, slug: string, words: seq<string>)
    ensures |Fit(u, slug, words)| >= |slug|
    decreases |words|
  {
    if words != [] && ByteLength(u, slug) + 1 + ByteLength(u, words[0]) <= SLUG_MAX_LENGTH {
      FitOnlyGrows(u, slug + "-" + words[0], words[1..]);
    }
  }

  // ---- Ids -----------------------------------------------------------------

  function DigitOf(d: nat): (c: char)
    requires d < 10
    ensures '0' <= c <= '9' && DigitValue(c) == d
  {
    "0123456789"[d]
  }

  function DigitValue(c: char): nat
    requires '0' <= c <= '9'
  {
    c as int - '0' as int
  }

  function Digits(n: nat): (s: string)
    ensures s != "" && forall c <- s :: '0' <= c <= '9'
  {
    (if n < 10 then "" else Digits(n / 10)) + [DigitOf(n % 10)]
  }

  function ToString(id: int): string {
    if id < 0 then "-" + Digits(-id) else Digits(id)
  }

  function SlugId(id: int, slug: Option<string>): string {
    match slug
    case Some(text) => ToString(id) + "-" + text
    case None => ToString(id)
  }

  function TakeWhile(keep: char -> bool, s: string): string {
    if s == "" || !keep(s[0]) then "" else [s[0]] + TakeWhile(keep, s[1..])
  }

  function ParseDigits(s: string): Option<nat> {
    if s == "" then Some(0)
    else
      var last := s[|s| - 1];
      match ParseDigits(s[..|s| - 1])
      case Some(n) => if '0' <= last <= '9' then Some(10 * n + DigitValue(last)) else None
      case None => None
  }

  /** Parsing fails on no digits, on numerals that are not ASCII digits, and on
      values beyond 64 bits. */
  function UnslugId(u: Unicode, s: string): Result<int, ()> {
    var digits := TakeWhile(u.isNumeric, s);
    match ParseDigits(digits)
    case Some(n) => if digits != "" && n <= I64_MAX then Ok(n) else Err(())
    case None => Err(())
  }

  lemma {:induction false} ParseSnoc(s: string, d: nat)
    requires d < 10 && ParseDigits(s).Some?
    ensures ParseDigits(s + [DigitOf(d)]) == Some(10 * ParseDigits(s).value + d)
  {
    var t := s + [DigitOf(d)];
    assert t[..|t| - 1] == s;
  }

  lemma {:induction false} ParseUndoesDigits(n: nat)
    ensures ParseDigits(Digits(n)) == Some(n)
  {
    if n < 10 {
      ParseSnoc("", n);
    } else {
      ParseUndoesDigits(n / 10);
      ParseSnoc(Digits(n / 10), n % 10);
    }
  }

  lemma {:induction false} TakeWhileStops(keep: char -> bool, a: string, b: string)
    requires forall c <- a :: keep(c)
    requires b == "" || !keep(b[0])
    ensures TakeWhile(keep, a + b) == a
  {
    if a == "" {
      assert a + b == b;
    } else {
      assert (a + b)[1..] == a[1..] + b;
      TakeWhileStops(keep, a[1..], b);
    }
  }

  lemma DigitsTaken(u: Unicode, n: nat, tail: string)
    requires AsciiNumerals(u) && (tail == "" || tail[0] == '-')
    ensures TakeWhile(u.isNumeric, Digits(n) + tail) == Digits(n)
  {
    TakeWhileStops(u.isNumeric, Digits(n), tail);
  }

  function Tail(slug: Option<string>): string {
    if slug.Some? then "-" + slug.value else ""
  }

  lemma SlugIdParts(id: int, slug: Option<string>)
    ensures SlugId(id, slug) == ToString(id) + Tail(slug)
  {
  }

  lemma UnslugReadsDigits(u: Unicode, n: nat, tail: string)
    requires AsciiNumerals(u) && (tail == "" || tail[0] == '-')
    ensures UnslugId(u, Digits(n) + tail) == if n <= I64_MAX then Ok(n) else Err(())
  {
    DigitsTaken(u, n, tail);
    ParseUndoesDigits(n);
  }

  lemma UnslugStopsAtHyphen(u: Unicode, digits: string, tail: string)
    requires AsciiNumerals(u)
    ensures UnslugId(u, "-" + digits + tail) == Err(())
  {
    assert TakeWhile(u.isNumeric, "-" + digits + tail) == "";
  }

  /** Main result: the id comes back from any slug exactly when it is not negative. */
  lemma UnslugUndoesSlug(u: Unicode, id: int, slug: Option<string>)
    requires AsciiNumerals(u) && I64_MIN <= id <= I64_MAX
    ensures UnslugId(u, SlugId(id, slug)) == if id >= 0 then Ok(id) else Err(())
  {
    SlugIdParts(id, slug);
    if id >= 0 {
      UnslugReadsDigits(u, id, Tail(slug));
    } else {
      UnslugStopsAtHyphen(u, Digits(-id), Tail(slug));
    }
  }
}
