/** The slugifier of slugify/slugify.go: a partial reimplementation of Pelican's
    `slugify`, built from a transliteration, two regular-expression rewrites, a
    Unicode normalisation and lower-casing.

    Strings are sequences of runes. The regular expressions are Go's RE2, whose
    `\w` is `[0-9A-Za-z_]` and whose `\s` is `[\t\n\f\r ]` (ASCII only). */
module Slugify {

  /** The two conversion tables the slugifier borrows from libraries: the
      transliteration of go-unidecode and the NFKD normalisation of
      golang.org/x/text. Their tables are not part of this model, so they are
      passed in as values. */
  datatype Tables = Tables(unidecode: string -> string, nfkd: string -> string)

  predicate IsAscii(c: char) { c as int < 128 }

  predicate AllAscii(s: string) {
    s == [] || (IsAscii(s[0]) && AllAscii(s[1..]))
  }

  /** What both libraries do on text that is already ASCII: leave it alone. */
  ghost predicate IdentityOnAscii(t: Tables) {
    forall s :: AllAscii(s) ==> t.unidecode(s) == s && t.nfkd(s) == s
  }

  /** RE2 `\w`. */
  predicate IsWordChar(c: char) {
    '0' <= c <= '9' || 'A' <= c <= 'Z' || 'a' <= c <= 'z' || c == '_'
  }

  /** RE2 `\s`. */
  predicate IsSpace(c: char) {
    c == '\t' || c == '\n' || c == '\U{000C}' || c == '\r' || c == ' '
  }

  /** The class `[-\s]` whose runs become one hyphen. */
  predicate IsSeparator(c: char) { c == '-' || IsSpace(c) }

  /** The class `[\w\s-]` that survives the first rewrite. */
  predicate IsKept(c: char) { IsWordChar(c) || IsSpace(c) || c == '-' }

  predicate IsUpper(c: char) { 'A' <= c <= 'Z' }

  /** The characters a slug is made of: `[0-9a-z_-]`. */
  predicate IsSlugChar(c: char) { ('0' <= c <= '9') || ('a' <= c <= 'z') || c == '_' || c == '-' }

  predicate NoDoubleHyphen(s: string) {
    forall i :: 0 <= i < |s| - 1 ==> !(s[i] == '-' && s[i + 1] == '-')
  }

  predicate EndsWithHyphen(s: string) { |s| > 0 && s[|s| - 1] == '-' }

  /** The shape of every value Slugify returns. */
  predicate IsSlug(s: string) {
    && (forall i :: 0 <= i < |s| ==> IsSlugChar(s[i]))
    && NoDoubleHyphen(s)
    && !EndsWithHyphen(s)
  }

  /** No `<` is followed, anywhere later, by a `>`: there is nothing left for
      `<[^>]*>` to match. */
  predicate NoTag(s: string) {
    forall i, j :: 0 <= i < j < |s| && s[i] == '<' ==> s[j] != '>'
  }

  // ---------------------------------------------------------------------------
  // Slugify and its stages

  /** The stages in the order the source applies them: transliterate, strip
      tags, normalise and lower-case, then replace special characters. */
  function Slugify(t: Tables, data: string): (r: string)
    ensures IsSlug(r)
  {
    var stripped := StripTags(t.unidecode(data));
    var lowered := ToNormalizedLowercase(t, stripped);
    LowercaseStaysLowercase(t.nfkd(stripped));
    ReplaceSpecialCharacters(lowered)
  }

  /** Position of the first `>` in s, or |s| when there is none. */
  function IndexOfClose(s: string): (k: nat)
    ensures k <= |s|
    ensures k < |s| ==> s[k] == '>'
    ensures forall j :: 0 <= j < k ==> s[j] != '>'
  {
    if s == [] then 0 else if s[0] == '>' then 0 else 1 + IndexOfClose(s[1..])
  }

  /** `<[^>]*>` replaced by "" everywhere, scanning left to right: a `<` that has
      a `>` somewhere after it starts a match that ends at the first such `>`
      (inner `<` are part of `[^>]*`); any other rune is kept. */
  function StripTags(s: string): (r: string)
    ensures |r| <= |s|
    ensures forall c :: c in r ==> c in s
    decreases |s|
  {
    if s == [] then []
    else if s[0] == '<' && IndexOfClose(s[1..]) < |s| - 1 then
      StripTags(s[IndexOfClose(s[1..]) + 2..])
    else
      [s[0]] + StripTags(s[1..])
  }

  /** NFKD followed by strings.ToLower. */
  function ToNormalizedLowercase(t: Tables, s: string): string {
    ToLower(t.nfkd(s))
  }

  /** unicode.ToLower on one rune, for the ASCII range. */
  function LowerRune(c: char): (d: char)
    ensures !IsUpper(d)
    ensures IsAscii(c) <==> IsAscii(d)
  {
    if IsUpper(c) then (c as int + 32) as char else c
  }

  function ToLower(s: string): (r: string)
    ensures |r| == |s|
    ensures forall i {:trigger r[i]} :: 0 <= i < |s| ==> r[i] == LowerRune(s[i])
  {
    if s == [] then [] else [LowerRune(s[0])] + ToLower(s[1..])
  }

  /** Step 1 of replaceSpecialCharacters: `[^\w\s-]` replaced by "". */
  function RemoveDisallowed(s: string): (r: string)
    ensures |r| <= |s|
  {
    if s == [] then []
    else (if IsKept(s[0]) then [s[0]] else []) + RemoveDisallowed(s[1..])
  }

  /** What is left after the leading run of `[-\s]`. */
  function SkipSeparators(s: string): (r: string)
    ensures |r| <= |s|
    ensures r == [] || !IsSeparator(r[0])
    ensures s != [] && IsSeparator(s[0]) ==> |r| < |s|
  {
    if s != [] && IsSeparator(s[0]) then SkipSeparators(s[1..]) else s
  }

  /** Step 2 of replaceSpecialCharacters: every maximal run of `[-\s]`
      replaced by one "-". */
  function CollapseSeparators(s: string): (r: string)
    ensures NoDoubleHyphen(r)
    ensures s != [] && !IsSeparator(s[0]) ==> r != [] && r[0] == s[0]
    decreases |s|
  {
    if s == [] then []
    else if IsSeparator(s[0]) then "-" + CollapseSeparators(SkipSeparators(s))
    else [s[0]] + CollapseSeparators(s[1..])
  }

  /** strings.TrimSuffix(s, "-"): at most one trailing hyphen goes. */
  function TrimHyphenSuffix(s: string): string {
    if EndsWithHyphen(s) then s[..|s| - 1] else s
  }

  /** The three steps of replaceSpecialCharacters. Only a trailing separator is
      trimmed: a leading one survives as "-". */
  function ReplaceSpecialCharacters(s: string): (r: string)
    ensures forall i :: 0 <= i < |r| ==> r[i] == '-' || (IsWordChar(r[i]) && r[i] in s)
    ensures NoDoubleHyphen(r)
    ensures !EndsWithHyphen(r)
  {
    var kept := RemoveDisallowed(s);
    RemoveDisallowedKeeps(s);
    var collapsed := CollapseSeparators(kept);
    CollapseSeparatorsKeeps(kept);
    var r := TrimHyphenSuffix(collapsed);
    assert forall i :: 0 <= i < |r| ==> r[i] == collapsed[i];
    r
  }

  // ---------------------------------------------------------------------------
  // Lemmas

  lemma {:induction false} RemoveDisallowedKeeps(s: string)
    ensures forall i :: 0 <= i < |RemoveDisallowed(s)| ==> IsKept(RemoveDisallowed(s)[i]) && RemoveDisallowed(s)[i] in s
  {
    if s != [] {
      RemoveDisallowedKeeps(s[1..]);
    }
  }

  lemma {:induction false} SkipSeparatorsIsSuffix(s: string)
    ensures SkipSeparators(s) == s[|s| - |SkipSeparators(s)|..]
  {
    if s != [] && IsSeparator(s[0]) {
      SkipSeparatorsIsSuffix(s[1..]);
    }
  }

  /** Every rune of the collapsed string is a hyphen or a non-separator rune of
      the input. */
  lemma {:induction false} CollapseSeparatorsKeeps(s: string)
    ensures forall i :: 0 <= i < |CollapseSeparators(s)| ==>
      CollapseSeparators(s)[i] == '-' || (CollapseSeparators(s)[i] in s && !IsSeparator(CollapseSeparators(s)[i]))
    decreases |s|
  {
    if s != [] {
      var r := CollapseSeparators(s);
      if IsSeparator(s[0]) {
        var rest := SkipSeparators(s);
        SkipSeparatorsIsSuffix(s);
        CollapseSeparatorsKeeps(rest);
        assert r == "-" + CollapseSeparators(rest);
        forall i | 0 <= i < |r| && r[i] != '-'
          ensures r[i] in s && !IsSeparator(r[i])
        {
          assert r[i] == CollapseSeparators(rest)[i - 1];
          assert r[i] in rest;
        }
      } else {
        CollapseSeparatorsKeeps(s[1..]);
        assert r == [s[0]] + CollapseSeparators(s[1..]);
        forall i | 0 <= i < |r| && r[i] != '-'
          ensures r[i] in s && !IsSeparator(r[i])
        {
          if i > 0 {
            assert r[i] == CollapseSeparators(s[1..])[i - 1];
            assert r[i] in s[1..];
          }
        }
      }
    }
  }

  lemma LowercaseStaysLowercase(s: string)
    ensures forall c :: c in ToLower(s) ==> !IsUpper(c)
  {
  }

  /** Once nothing is left to match, stripTags changes nothing; in particular
      an input without `<` comes back unchanged. */
  lemma {:induction false} StripTagsUnchanged(s: string)
    requires NoTag(s)
    ensures StripTags(s) == s
    decreases |s|
  {
    if s != [] {
      StripTagsUnchanged(s[1..]);
    }
  }

  lemma NoOpenMeansNoTag(s: string)
    requires '<' !in s
    ensures NoTag(s)
  {
  }

  /** The output of stripTags holds no `<` that is followed later by a `>`:
      `[^>]*` swallows inner `<`, so no tag survives. */
  lemma {:induction false} StripTagsLeavesNoTag(s: string)
    ensures NoTag(StripTags(s))
    decreases |s|
  {
    if s != [] {
      var k := IndexOfClose(s[1..]);
      if s[0] == '<' && k < |s| - 1 {
        StripTagsLeavesNoTag(s[k + 2..]);
      } else {
        var rest := StripTags(s[1..]);
        var r := [s[0]] + rest;
        StripTagsLeavesNoTag(s[1..]);
        assert r == StripTags(s);
        forall i, j | 0 <= i < j < |r| && r[i] == '<'
          ensures r[j] != '>'
        {
          if i == 0 {
            assert r[j] == rest[j - 1];
            assert rest[j - 1] in s[1..];
          } else {
            assert r[i] == rest[i - 1] && r[j] == rest[j - 1];
          }
        }
      }
    }
  }

  lemma StripTagsIdempotent(s: string)
    ensures StripTags(StripTags(s)) == StripTags(s)
  {
    StripTagsLeavesNoTag(s);
    StripTagsUnchanged(StripTags(s));
  }

  lemma {:induction false} RemoveDisallowedUnchanged(s: string)
    requires forall i :: 0 <= i < |s| ==> IsKept(s[i])
    ensures RemoveDisallowed(s) == s
  {
    if s != [] {
      RemoveDisallowedUnchanged(s[1..]);
    }
  }

  lemma {:induction false} CollapseSeparatorsUnchanged(s: string)
    requires forall i :: 0 <= i < |s| ==> !IsSpace(s[i])
    requires NoDoubleHyphen(s)
    ensures CollapseSeparators(s) == s
    decreases |s|
  {
    if s != [] {
      if IsSeparator(s[0]) {
        assert s[0] == '-';
        assert |s| > 1 ==> s[1] != '-' && !IsSpace(s[1]);
        assert SkipSeparators(s) == s[1..];
      }
      CollapseSeparatorsUnchanged(s[1..]);
    }
  }

  /** A string already in the output shape of replaceSpecialCharacters is left
      as it is. */
  lemma ReplaceSpecialCharactersUnchanged(s: string)
    requires forall i :: 0 <= i < |s| ==> IsWordChar(s[i]) || s[i] == '-'
    requires NoDoubleHyphen(s)
    requires !EndsWithHyphen(s)
    ensures ReplaceSpecialCharacters(s) == s
  {
    RemoveDisallowedUnchanged(s);
    CollapseSeparatorsUnchanged(s);
  }

  /** replaceSpecialCharacters is idempotent. */
  lemma ReplaceSpecialCharactersIdempotent(s: string)
    ensures ReplaceSpecialCharacters(ReplaceSpecialCharacters(s)) == ReplaceSpecialCharacters(s)
  {
    ReplaceSpecialCharactersUnchanged(ReplaceSpecialCharacters(s));
  }

  lemma {:induction false} SlugIsAscii(s: string)
    requires forall i :: 0 <= i < |s| ==> IsSlugChar(s[i])
    ensures AllAscii(s)
  {
    if s != [] {
      SlugIsAscii(s[1..]);
    }
  }

  lemma {:induction false} ToLowerUnchanged(s: string)
    requires forall i :: 0 <= i < |s| ==> !IsUpper(s[i])
    ensures ToLower(s) == s
  {
    if s != [] {
      ToLowerUnchanged(s[1..]);
    }
  }

  /** A kept rune is still there once the others are removed. */
  lemma {:induction false} RemoveDisallowedKeepsKept(s: string, k: nat)
    requires k < |s| && IsKept(s[k])
    ensures s[k] in RemoveDisallowed(s)
    decreases k
  {
    if k > 0 {
      assert s[1..][k - 1] == s[k];
      RemoveDisallowedKeepsKept(s[1..], k - 1);
    }
  }

  /** A rune that is no separator stops the skip before the end. */
  lemma {:induction false} SkipSeparatorsStops(s: string, c: char)
    requires c in s && !IsSeparator(c)
    ensures SkipSeparators(s) != []
    decreases |s|
  {
    if IsSeparator(s[0]) {
      assert s == [s[0]] + s[1..];
      SkipSeparatorsStops(s[1..], c);
    }
  }

  /** Only a trailing separator is trimmed: a leading one, with a word rune
      somewhere after it, comes out as a leading "-". */
  lemma LeadingSeparatorKept(s: string, k: nat)
    requires s != [] && IsSeparator(s[0])
    requires k < |s| && IsWordChar(s[k])
    ensures ReplaceSpecialCharacters(s) != [] && ReplaceSpecialCharacters(s)[0] == '-'
  {
    var kept := RemoveDisallowed(s);
    assert kept == [s[0]] + RemoveDisallowed(s[1..]);
    RemoveDisallowedKeepsKept(s, k);
    SkipSeparatorsStops(kept, s[k]);
    var collapsed := CollapseSeparators(kept);
    assert collapsed == "-" + CollapseSeparators(SkipSeparators(kept));
    assert |collapsed| >= 2;
  }

  /** " hello" slugifies to "-hello": the leading space is kept as a hyphen. */
  lemma SlugifyLeadingSpace(t: Tables, data: string)
    requires IdentityOnAscii(t)
    requires data == " hello"
    ensures Slugify(t, data) == "-hello"
  {
    assert data == " " + "hello";
    assert IsWord("hello");
    SlugifySpaceThenWord(t, "hello");
  }

  /** A space before a lower-case word slugifies to a hyphen before it. */
  lemma SlugifySpaceThenWord(t: Tables, w: string)
    requires IdentityOnAscii(t)
    requires IsWord(w) && forall i :: 0 <= i < |w| ==> !IsUpper(w[i])
    ensures Slugify(t, " " + w) == "-" + w
  {
    var s := " " + w;
    forall i | 0 <= i < |s| ensures IsPlainChar(s[i]) && !IsUpper(s[i]) {
      if i > 0 {
        assert s[i] == w[i - 1];
      }
    }
    AllAsciiOfPlain(s);
    assert '<' !in s;
    NoOpenMeansNoTag(s);
    StripTagsUnchanged(s);
    ToLowerUnchanged(s);
    SpaceThenWord(w);
  }

  /** A space before a lower-case word becomes a hyphen before it. */
  lemma SpaceThenWord(w: string)
    requires IsWord(w) && forall i :: 0 <= i < |w| ==> !IsUpper(w[i])
    ensures ReplaceSpecialCharacters(" " + w) == "-" + w
  {
    var s := " " + w;
    forall i | 0 <= i < |s| ensures IsKept(s[i]) {
      if i > 0 {
        assert s[i] == w[i - 1];
      }
    }
    RemoveDisallowedUnchanged(s);
    CollapseSeparatorRun(" ", w);
    CollapseSeparatorsUnchanged(w);
    assert ("-" + w)[|w|] == w[|w| - 1];
  }

  /** Slugifying a slug again changes nothing, as long as the two tables leave
      ASCII text alone. */
  lemma SlugifyIdempotent(t: Tables, data: string)
    requires IdentityOnAscii(t)
    ensures Slugify(t, Slugify(t, data)) == Slugify(t, data)
  {
    var s := Slugify(t, data);
    SlugIsAscii(s);
    assert t.unidecode(s) == s;
    assert '<' !in s;
    NoOpenMeansNoTag(s);
    StripTagsUnchanged(s);
    assert t.nfkd(s) == s;
    ToLowerUnchanged(s);
    ReplaceSpecialCharactersUnchanged(s);
  }

  // ---------------------------------------------------------------------------
  // The first case of slugify/slugify_test.go, worked through piece by piece

  predicate EndsInWord(s: string) { |s| > 0 && !IsSeparator(s[|s| - 1]) }

  lemma {:induction false} ToLowerConcat(a: string, b: string)
    ensures ToLower(a + b) == ToLower(a) + ToLower(b)
  {
    if a == [] {
      assert a + b == b;
    } else {
      assert (a + b)[1..] == a[1..] + b;
      ToLowerConcat(a[1..], b);
    }
  }

  lemma {:induction false} RemoveDisallowedConcat(a: string, b: string)
    ensures RemoveDisallowed(a + b) == RemoveDisallowed(a) + RemoveDisallowed(b)
  {
    if a == [] {
      assert a + b == b;
    } else {
      var ab := a + b;
      var head := if IsKept(a[0]) then [a[0]] else [];
      assert ab[0] == a[0];
      assert ab[1..] == a[1..] + b;
      RemoveDisallowedConcat(a[1..], b);
      calc {
        RemoveDisallowed(ab);
        head + RemoveDisallowed(a[1..] + b);
        head + (RemoveDisallowed(a[1..]) + RemoveDisallowed(b));
        (head + RemoveDisallowed(a[1..])) + RemoveDisallowed(b);
      }
    }
  }

  lemma {:induction false} SkipSeparatorsConcat(a: string, b: string)
    requires EndsInWord(a)
    ensures SkipSeparators(a + b) == SkipSeparators(a) + b
    ensures EndsInWord(SkipSeparators(a))
  {
    assert (a + b)[0] == a[0];
    if IsSeparator(a[0]) {
      assert (a + b)[1..] == a[1..] + b;
      SkipSeparatorsConcat(a[1..], b);
    }
  }

  /** A run of separators never spans the boundary after a word character. */
  lemma {:induction false} CollapseSeparatorsConcat(a: string, b: string)
    requires EndsInWord(a)
    ensures CollapseSeparators(a + b) == CollapseSeparators(a) + CollapseSeparators(b)
    decreases |a|, 1
  {
    if IsSeparator(a[0]) {
      CollapseConcatFromSeparator(a, b);
    } else {
      CollapseConcatFromWord(a, b);
    }
  }

  lemma {:induction false} CollapseConcatFromSeparator(a: string, b: string)
    requires EndsInWord(a) && IsSeparator(a[0])
    ensures CollapseSeparators(a + b) == CollapseSeparators(a) + CollapseSeparators(b)
    decreases |a|, 0
  {
    var ab := a + b;
    assert ab[0] == a[0];
    SkipSeparatorsConcat(a, b);
    var rest := SkipSeparators(a);
    CollapseSeparatorsConcat(rest, b);
    calc {
      CollapseSeparators(ab);
      "-" + CollapseSeparators(SkipSeparators(ab));
      "-" + CollapseSeparators(rest + b);
      "-" + (CollapseSeparators(rest) + CollapseSeparators(b));
      ("-" + CollapseSeparators(rest)) + CollapseSeparators(b);
    }
  }

  lemma {:induction false} CollapseConcatFromWord(a: string, b: string)
    requires EndsInWord(a) && !IsSeparator(a[0])
    ensures CollapseSeparators(a + b) == CollapseSeparators(a) + CollapseSeparators(b)
    decreases |a|, 0
  {
    if |a| == 1 {
      CollapseConcatOneWord(a, b);
    } else {
      var ab := a + b;
      assert ab[0] == a[0];
      assert ab[1..] == a[1..] + b;
      CollapseSeparatorsConcat(a[1..], b);
    }
  }

  lemma CollapseConcatOneWord(a: string, b: string)
    requires |a| == 1 && !IsSeparator(a[0])
    ensures CollapseSeparators(a + b) == CollapseSeparators(a) + CollapseSeparators(b)
  {
    var ab := a + b;
    assert ab[0] == a[0];
    assert ab[1..] == b;
    assert a[1..] == [];
    assert CollapseSeparators(a) == [a[0]];
  }

  // ---------------------------------------------------------------------------
  // Titles made of words and gaps

  /** A non-empty run of `\w` runes. */
  predicate IsWord(w: string) {
    |w| > 0 && forall i :: 0 <= i < |w| ==> IsWordChar(w[i])
  }

  /** ASCII and not `<`: a rune that neither transliteration nor tag stripping
      touches. */
  predicate IsPlainChar(c: char) { IsAscii(c) && c != '<' }

  predicate IsPlain(s: string) {
    forall i :: 0 <= i < |s| ==> IsPlainChar(s[i])
  }

  /** What may stand between two words: plain punctuation and separators, with
      at least one separator among them. */
  predicate IsGap(g: string) {
    && (exists i :: 0 <= i < |g| && IsSeparator(g[i]))
    && forall i :: 0 <= i < |g| ==> IsPlainChar(g[i]) && !IsWordChar(g[i])
  }

  /** Each pair is a gap followed by a word. */
  predicate IsPhrase(rest: seq<(string, string)>) {
    forall k :: 0 <= k < |rest| ==> IsGap(rest[k].0) && IsWord(rest[k].1)
  }

  /** Lower-casing and the first rewrite. */
  function Kept(s: string): string { RemoveDisallowed(ToLower(s)) }

  lemma KeptConcat(a: string, b: string)
    ensures Kept(a + b) == Kept(a) + Kept(b)
  {
    ToLowerConcat(a, b);
    RemoveDisallowedConcat(ToLower(a), ToLower(b));
  }

  /** A word comes through lower-casing and the first rewrite as its lower-case
      form, made of word runes only. */
  lemma KeptWord(w: string)
    requires IsWord(w)
    ensures Kept(w) == ToLower(w)
    ensures IsWord(ToLower(w))
  {
    RemoveDisallowedUnchanged(ToLower(w));
  }

  lemma {:induction false} KeptOfKept(s: string, c: char)
    requires c in s && IsKept(c)
    ensures c in RemoveDisallowed(s)
  {
    if s[0] != c {
      KeptOfKept(s[1..], c);
    }
  }

  /** A gap comes through as a non-empty run of separators. */
  lemma KeptGap(g: string)
    requires IsGap(g)
    ensures Kept(g) != []
    ensures forall i :: 0 <= i < |Kept(g)| ==> IsSeparator(Kept(g)[i])
  {
    ToLowerUnchanged(g);
    RemoveDisallowedKeeps(g);
    var i :| 0 <= i < |g| && IsSeparator(g[i]);
    KeptOfKept(g, g[i]);
  }

  lemma {:induction false} SkipSeparatorRun(s: string, t: string)
    requires forall i :: 0 <= i < |s| ==> IsSeparator(s[i])
    requires t == [] || !IsSeparator(t[0])
    ensures SkipSeparators(s + t) == t
  {
    if s == [] {
      assert s + t == t;
    } else {
      assert (s + t)[0] == s[0];
      assert (s + t)[1..] == s[1..] + t;
      SkipSeparatorRun(s[1..], t);
    }
  }

  /** A run of separators in front of a word becomes one hyphen. */
  lemma CollapseSeparatorRun(s: string, t: string)
    requires s != [] && forall i :: 0 <= i < |s| ==> IsSeparator(s[i])
    requires t == [] || !IsSeparator(t[0])
    ensures CollapseSeparators(s + t) == "-" + CollapseSeparators(t)
  {
    assert (s + t)[0] == s[0];
    SkipSeparatorRun(s, t);
  }

  /** A title: a first word, then each gap followed by its word. */
  function Title(first: string, rest: seq<(string, string)>): string
    decreases |rest|
  {
    if rest == [] then first
    else Title(first, rest[..|rest| - 1]) + rest[|rest| - 1].0 + rest[|rest| - 1].1
  }

  /** The slug a title should give: its words lower-cased and joined by single
      hyphens. */
  function TitleSlug(first: string, rest: seq<(string, string)>): string
    decreases |rest|
  {
    if rest == [] then ToLower(first)
    else TitleSlug(first, rest[..|rest| - 1]) + "-" + ToLower(rest[|rest| - 1].1)
  }

  lemma PhrasePrefix(rest: seq<(string, string)>, n: nat)
    requires IsPhrase(rest) && n <= |rest|
    ensures IsPhrase(rest[..n])
  {
    forall k | 0 <= k < n
      ensures IsGap(rest[..n][k].0) && IsWord(rest[..n][k].1)
    {
      assert rest[..n][k] == rest[k];
    }
  }

  lemma WordIsPlain(w: string)
    requires IsWord(w)
    ensures IsPlain(w)
  {
  }

  /** The stages after tag stripping, applied to a title, give its slug, and
      the kept form of a title ends in a word rune. */
  lemma {:induction false} CollapseTitle(first: string, rest: seq<(string, string)>)
    requires IsWord(first) && IsPhrase(rest)
    ensures CollapseSeparators(Kept(Title(first, rest))) == TitleSlug(first, rest)
    ensures EndsInWord(Kept(Title(first, rest)))
    decreases |rest|
  {
    if rest == [] {
      CollapseWord(first);
    } else {
      var init, g, w := rest[..|rest| - 1], rest[|rest| - 1].0, rest[|rest| - 1].1;
      PhrasePrefix(rest, |rest| - 1);
      CollapseTitle(first, init);
      CollapseGapWord(Title(first, init), g, w);
      assert TitleSlug(first, rest) == TitleSlug(first, init) + ("-" + ToLower(w));
    }
  }

  /** A gap and a word appended to text that ends in a word rune add one
      hyphen and the lowered word to its collapsed form. */
  lemma CollapseGapWord(prefix: string, g: string, w: string)
    requires EndsInWord(Kept(prefix)) && IsGap(g) && IsWord(w)
    ensures CollapseSeparators(Kept(prefix + g + w))
              == CollapseSeparators(Kept(prefix)) + ("-" + ToLower(w))
    ensures EndsInWord(Kept(prefix + g + w))
  {
    KeptThree(prefix, g, w);
    KeptWord(w);
    KeptGap(g);
    CollapseAfterRun(Kept(prefix), Kept(g), ToLower(w));
  }

  lemma KeptThree(a: string, b: string, c: string)
    ensures Kept(a + b + c) == Kept(a) + (Kept(b) + Kept(c))
  {
    KeptConcat(a + b, c);
    KeptConcat(a, b);
  }

  lemma CollapseWord(w: string)
    requires IsWord(w)
    ensures CollapseSeparators(Kept(w)) == ToLower(w)
    ensures EndsInWord(Kept(w))
  {
    KeptWord(w);
    CollapseSeparatorsUnchanged(ToLower(w));
  }

  /** One step of CollapseTitle: the kept form of a gap becomes one hyphen
      between what came before and the next word. */
  lemma CollapseAfterRun(kp: string, kg: string, lw: string)
    requires EndsInWord(kp) && IsWord(lw)
    requires kg != [] && forall i :: 0 <= i < |kg| ==> IsSeparator(kg[i])
    ensures CollapseSeparators(kp + (kg + lw)) == CollapseSeparators(kp) + ("-" + lw)
    ensures EndsInWord(kp + (kg + lw))
  {
    CollapseSeparatorsConcat(kp, kg + lw);
    CollapseSeparatorRun(kg, lw);
    CollapseSeparatorsUnchanged(lw);
  }

  /** A title's slug ends in a word rune, so the final trim leaves it alone. */
  lemma {:induction false} TitleSlugEndsInWord(first: string, rest: seq<(string, string)>)
    requires IsWord(first) && IsPhrase(rest)
    ensures EndsInWord(TitleSlug(first, rest))
  {
    if rest == [] {
      KeptWord(first);
    } else {
      KeptWord(rest[|rest| - 1].1);
    }
  }

  /** A title holds ASCII runes and no `<`. */
  lemma {:induction false} PlainTitle(first: string, rest: seq<(string, string)>)
    requires IsWord(first) && IsPhrase(rest)
    ensures IsPlain(Title(first, rest))
    decreases |rest|
  {
    if rest == [] {
      WordIsPlain(first);
    } else {
      var init, g, w := rest[..|rest| - 1], rest[|rest| - 1].0, rest[|rest| - 1].1;
      PhrasePrefix(rest, |rest| - 1);
      PlainTitle(first, init);
      WordIsPlain(w);
      var prefix := Title(first, init);
      var title := Title(first, rest);
      forall i | 0 <= i < |title|
        ensures IsPlainChar(title[i])
      {
        if i < |prefix| {
          assert title[i] == prefix[i];
        } else if i < |prefix| + |g| {
          assert title[i] == g[i - |prefix|];
        } else {
          assert title[i] == w[i - |prefix| - |g|];
        }
      }
    }
  }

  lemma {:induction false} AllAsciiOfPlain(s: string)
    requires IsPlain(s)
    ensures AllAscii(s)
  {
    if s != [] {
      AllAsciiOfPlain(s[1..]);
    }
  }

  /** A title of ASCII words, on text the tables leave alone, slugifies to its
      lower-cased words joined by single hyphens, whatever punctuation and runs
      of separators stood between them. */
  lemma SlugifyTitle(t: Tables, first: string, rest: seq<(string, string)>)
    requires IdentityOnAscii(t)
    requires IsWord(first) && IsPhrase(rest)
    ensures Slugify(t, Title(first, rest)) == TitleSlug(first, rest)
  {
    var data := Title(first, rest);
    CollapseTitle(first, rest);
    TitleSlugEndsInWord(first, rest);
    PlainTitle(first, rest);
    AllAsciiOfPlain(data);
    NoOpenMeansNoTag(data);
    StripTagsUnchanged(data);
  }

  lemma TitleSnoc(first: string, init: seq<(string, string)>, g: string, w: string)
    requires IsPhrase(init) && IsGap(g) && IsWord(w)
    ensures IsPhrase(init + [(g, w)])
    ensures Title(first, init + [(g, w)]) == Title(first, init) + g + w
    ensures TitleSlug(first, init + [(g, w)]) == TitleSlug(first, init) + "-" + ToLower(w)
  {
    var rest := init + [(g, w)];
    assert rest[..|rest| - 1] == init;
    forall k | 0 <= k < |rest|
      ensures IsGap(rest[k].0) && IsWord(rest[k].1)
    {
      if k < |init| {
        assert rest[k] == init[k];
      }
    }
  }

  /** One more gap and word at the end of a title, with the title and slug
      so far given as values. */
  lemma TitleStep(first: string, init: seq<(string, string)>, g: string, w: string,
                  t: string, u: string, lw: string) returns (rest: seq<(string, string)>)
    requires IsPhrase(init) && IsGap(g) && IsWord(w) && ToLower(w) == lw
    requires Title(first, init) == t && TitleSlug(first, init) == u
    ensures IsPhrase(rest)
    ensures Title(first, rest) == t + g + w
    ensures TitleSlug(first, rest) == u + "-" + lw
  {
    TitleSnoc(first, init, g, w);
    rest := init + [(g, w)];
  }

  /** The gaps of the first test title. */
  lemma ConferenceTitleGaps()
    ensures IsGap(" ") && IsGap(" @ ") && IsGap(": ")
  {
    assert IsSeparator(" "[0]) && IsSeparator(" @ "[0]) && IsSeparator(": "[1]);
  }

  // The words of the first test title and their lower-case forms, one lemma
  // per word. Each word comes in as a parameter, so that its lower-case form
  // follows from the contract of ToLower rather than from unfolding it.

  lemma ConferenceWordCarl(w: string)
    requires w == "Carl"
    ensures IsWord(w) && ToLower(w) == "carl"
  {
  }

  lemma ConferenceWordMeyer(w: string)
    requires w == "Meyer"
    ensures IsWord(w) && ToLower(w) == "meyer"
  {
  }

  lemma ConferenceWordAbout(w: string)
    requires w == "about"
    ensures IsWord(w) && ToLower(w) == "about"
  {
  }

  lemma ConferenceWordDjango(w: string)
    requires w == "Django"
    ensures IsWord(w) && ToLower(w) == "django"
  {
  }

  lemma ConferenceWordInstagram(w: string)
    requires w == "Instagram"
    ensures IsWord(w) && ToLower(w) == "instagram"
  {
  }

  lemma ConferenceWordAt(w: string)
    requires w == "at"
    ensures IsWord(w) && ToLower(w) == "at"
  {
  }

  lemma ConferenceWordUnder(w: string)
    requires w == "Under"
    ensures IsWord(w) && ToLower(w) == "under"
  {
  }

  lemma ConferenceWordThe(w: string)
    requires w == "The"
    ensures IsWord(w) && ToLower(w) == "the"
  {
  }

  lemma ConferenceWordHood(w: string)
    requires w == "Hood"
    ensures IsWord(w) && ToLower(w) == "hood"
  {
  }

  lemma ConferenceWordYear2016(w: string)
    requires w == "2016"
    ensures IsWord(w) && ToLower(w) == "2016"
  {
  }

  /** How the first test title is built up, piece by piece. */
  lemma ConferenceTitleTexts1()
    ensures "Carl " == "Carl" + " "
    ensures "Carl Meyer" == "Carl " + "Meyer"
    ensures "Carl Meyer " == "Carl Meyer" + " "
    ensures "Carl Meyer about" == "Carl Meyer " + "about"
    ensures "Carl Meyer about " == "Carl Meyer about" + " "
    ensures "Carl Meyer about Django" == "Carl Meyer about " + "Django"
    ensures "Carl Meyer about Django @ " == "Carl Meyer about Django" + " @ "
    ensures "Carl Meyer about Django @ Instagram" == "Carl Meyer about Django @ " + "Instagram"
    ensures "Carl Meyer about Django @ Instagram " == "Carl Meyer about Django @ Instagram" + " "
    ensures "Carl Meyer about Django @ Instagram at" == "Carl Meyer about Django @ Instagram " + "at"
  {
  }

  lemma ConferenceTitleTexts2()
    ensures "Carl Meyer about Django @ Instagram at " == "Carl Meyer about Django @ Instagram at" + " "
    ensures "Carl Meyer about Django @ Instagram at Django" == "Carl Meyer about Django @ Instagram at " + "Django"
    ensures "Carl Meyer about Django @ Instagram at Django: " == "Carl Meyer about Django @ Instagram at Django" + ": "
    ensures "Carl Meyer about Django @ Instagram at Django: Under" == "Carl Meyer about Django @ Instagram at Django: " + "Under"
    ensures "Carl Meyer about Django @ Instagram at Django: Under " == "Carl Meyer about Django @ Instagram at Django: Under" + " "
    ensures "Carl Meyer about Django @ Instagram at Django: Under The" == "Carl Meyer about Django @ Instagram at Django: Under " + "The"
    ensures "Carl Meyer about Django @ Instagram at Django: Under The " == "Carl Meyer about Django @ Instagram at Django: Under The" + " "
    ensures "Carl Meyer about Django @ Instagram at Django: Under The Hood" == "Carl Meyer about Django @ Instagram at Django: Under The " + "Hood"
    ensures "Carl Meyer about Django @ Instagram at Django: Under The Hood " == "Carl Meyer about Django @ Instagram at Django: Under The Hood" + " "
    ensures "Carl Meyer about Django @ Instagram at Django: Under The Hood 2016" == "Carl Meyer about Django @ Instagram at Django: Under The Hood " + "2016"
  {
  }

  /** How its slug is built up, piece by piece. */
  lemma ConferenceSlugTexts1()
    ensures "carl-" == "carl" + "-"
    ensures "carl-meyer" == "carl-" + "meyer"
    ensures "carl-meyer-" == "carl-meyer" + "-"
    ensures "carl-meyer-about" == "carl-meyer-" + "about"
    ensures "carl-meyer-about-" == "carl-meyer-about" + "-"
    ensures "carl-meyer-about-django" == "carl-meyer-about-" + "django"
    ensures "carl-meyer-about-django-" == "carl-meyer-about-django" + "-"
    ensures "carl-meyer-about-django-instagram" == "carl-meyer-about-django-" + "instagram"
    ensures "carl-meyer-about-django-instagram-" == "carl-meyer-about-django-instagram" + "-"
    ensures "carl-meyer-about-django-instagram-at" == "carl-meyer-about-django-instagram-" + "at"
  {
  }

  lemma ConferenceSlugTexts2()
    ensures "carl-meyer-about-django-instagram-at-" == "carl-meyer-about-django-instagram-at" + "-"
    ensures "carl-meyer-about-django-instagram-at-django" == "carl-meyer-about-django-instagram-at-" + "django"
    ensures "carl-meyer-about-django-instagram-at-django-" == "carl-meyer-about-django-instagram-at-django" + "-"
    ensures "carl-meyer-about-django-instagram-at-django-under" == "carl-meyer-about-django-instagram-at-django-" + "under"
    ensures "carl-meyer-about-django-instagram-at-django-under-" == "carl-meyer-about-django-instagram-at-django-under" + "-"
    ensures "carl-meyer-about-django-instagram-at-django-under-the" == "carl-meyer-about-django-instagram-at-django-under-" + "the"
    ensures "carl-meyer-about-django-instagram-at-django-under-the-" == "carl-meyer-about-django-instagram-at-django-under-the" + "-"
    ensures "carl-meyer-about-django-instagram-at-django-under-the-hood" == "carl-meyer-about-django-instagram-at-django-under-the-" + "hood"
    ensures "carl-meyer-about-django-instagram-at-django-under-the-hood-" == "carl-meyer-about-django-instagram-at-django-under-the-hood" + "-"
    ensures "carl-meyer-about-django-instagram-at-django-under-the-hood-2016" == "carl-meyer-about-django-instagram-at-django-under-the-hood-" + "2016"
  {
  }

  lemma ConferenceTitleWords1To5(w0: string, init: seq<(string, string)>, w1: string, w2: string, w3: string, w4: string, w5: string) returns (rest: seq<(string, string)>)
    requires IsPhrase(init) && Title(w0, init) == "Carl" && TitleSlug(w0, init) == "carl"
    requires w1 == "Meyer" && w2 == "about" && w3 == "Django" && w4 == "Instagram" && w5 == "at"
    ensures IsPhrase(rest)
    ensures Title(w0, rest) == "Carl Meyer about Django @ Instagram at"
    ensures TitleSlug(w0, rest) == "carl-meyer-about-django-instagram-at"
  {
    ConferenceTitleGaps();
    ConferenceTitleTexts1();
    ConferenceSlugTexts1();
    ConferenceWordMeyer(w1);
    var r1 := TitleStep(w0, init, " ", w1, "Carl", "carl", "meyer");
    ConferenceWordAbout(w2);
    var r2 := TitleStep(w0, r1, " ", w2, "Carl Meyer", "carl-meyer", "about");
    ConferenceWordDjango(w3);
    var r3 := TitleStep(w0, r2, " ", w3, "Carl Meyer about", "carl-meyer-about", "django");
    ConferenceWordInstagram(w4);
    var r4 := TitleStep(w0, r3, " @ ", w4, "Carl Meyer about Django", "carl-meyer-about-django", "instagram");
    ConferenceWordAt(w5);
    var r5 := TitleStep(w0, r4, " ", w5, "Carl Meyer about Django @ Instagram", "carl-meyer-about-django-instagram", "at");
    rest := r5;
  }

  lemma ConferenceTitleWords6To10(w0: string, init: seq<(string, string)>, w6: string, w7: string, w8: string, w9: string, w10: string) returns (rest: seq<(string, string)>)
    requires IsPhrase(init) && Title(w0, init) == "Carl Meyer about Django @ Instagram at" && TitleSlug(w0, init) == "carl-meyer-about-django-instagram-at"
    requires w6 == "Django" && w7 == "Under" && w8 == "The" && w9 == "Hood" && w10 == "2016"
    ensures IsPhrase(rest)
    ensures Title(w0, rest) == "Carl Meyer about Django @ Instagram at Django: Under The Hood 2016"
    ensures TitleSlug(w0, rest) == "carl-meyer-about-django-instagram-at-django-under-the-hood-2016"
  {
    ConferenceTitleGaps();
    ConferenceTitleTexts2();
    ConferenceSlugTexts2();
    ConferenceWordDjango(w6);
    var r6 := TitleStep(w0, init, " ", w6, "Carl Meyer about Django @ Instagram at", "carl-meyer-about-django-instagram-at", "django");
    ConferenceWordUnder(w7);
    var r7 := TitleStep(w0, r6, ": ", w7, "Carl Meyer about Django @ Instagram at Django", "carl-meyer-about-django-instagram-at-django", "under");
    ConferenceWordThe(w8);
    var r8 := TitleStep(w0, r7, " ", w8, "Carl Meyer about Django @ Instagram at Django: Under", "carl-meyer-about-django-instagram-at-django-under", "the");
    ConferenceWordHood(w9);
    var r9 := TitleStep(w0, r8, " ", w9, "Carl Meyer about Django @ Instagram at Django: Under The", "carl-meyer-about-django-instagram-at-django-under-the", "hood");
    ConferenceWordYear2016(w10);
    var r10 := TitleStep(w0, r9, " ", w10, "Carl Meyer about Django @ Instagram at Django: Under The Hood", "carl-meyer-about-django-instagram-at-django-under-the-hood", "2016");
    rest := r10;
  }

  /** The first case of slugify/slugify_test.go. */
  lemma SlugifyConferenceTitle(t: Tables, data: string)
    requires IdentityOnAscii(t)
    requires data == "Carl Meyer about Django @ Instagram at Django: Under The Hood 2016"
    ensures Slugify(t, data) == "carl-meyer-about-django-instagram-at-django-under-the-hood-2016"
  {
    ConferenceWordCarl("Carl");
    var r0: seq<(string, string)> := [];
    assert Title("Carl", r0) == "Carl" && TitleSlug("Carl", r0) == "carl";
    var r5 := ConferenceTitleWords1To5("Carl", r0, "Meyer", "about", "Django", "Instagram", "at");
    var r10 := ConferenceTitleWords6To10("Carl", r5, "Django", "Under", "The", "Hood", "2016");
    SlugifyTitle(t, "Carl", r10);
  }

  // The title of the session file in index/indexing_test.go.

  lemma SessionWordSome(w: string)
    requires w == "Some"
    ensures IsWord(w) && ToLower(w) == "some"
  {
  }

  lemma SessionWordTitle(w: string)
    requires w == "title"
    ensures IsWord(w) && ToLower(w) == "title"
  {
  }

  /** How that title and its slug are built up. */
  lemma SessionTitleTexts()
    ensures "Some title" == "Some" + " " + "title"
    ensures "some-title" == "some" + "-" + "title"
  {
  }

  lemma SessionTitleWords(w0: string, w1: string) returns (rest: seq<(string, string)>)
    requires w0 == "Some" && w1 == "title"
    ensures IsWord(w0) && IsPhrase(rest)
    ensures Title(w0, rest) == "Some title"
    ensures TitleSlug(w0, rest) == "some-title"
  {
    SessionWordSome(w0);
    SessionWordTitle(w1);
    ConferenceTitleGaps();
    SessionTitleTexts();
    var r0: seq<(string, string)> := [];
    rest := TitleStep(w0, r0, " ", w1, "Some", "some", "title");
  }

  /** A session titled "Some title" gets the slug "some-title". */
  lemma SlugifySessionTitle(t: Tables, data: string)
    requires IdentityOnAscii(t)
    requires data == "Some title"
    ensures Slugify(t, data) == "some-title"
  {
    var rest := SessionTitleWords("Some", "title");
    SlugifyTitle(t, "Some", rest);
  }
}
