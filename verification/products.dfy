/**
 * `lib/products.ts`: the slug derivation used for product URLs and the
 * percentage-discount formula.
 */
module Products {
  import opened Seqs
  import opened JsString

  // ---------------------------------------------------------------------------
  // generateSlug: lower-case, drop everything but [a-z0-9 -], turn whitespace
  // runs into one hyphen, collapse hyphen runs, trim.
  // ---------------------------------------------------------------------------

  /** Characters the `[^a-z0-9 -]` class does not delete. */
  predicate IsKept(c: char) { 'a' <= c <= 'z' || '0' <= c <= '9' || c == ' ' || c == '-' }

  predicate IsLowerAlnum(c: char) { 'a' <= c <= 'z' || '0' <= c <= '9' }

  /** The alphabet of a slug. */
  predicate IsSlugChar(c: char) { IsLowerAlnum(c) || c == '-' }

  predicate IsHyphen(c: char) { c == '-' }

  predicate IsNotHyphen(c: char) { c != '-' }

  predicate NoDoubleHyphen(s: string) {
    forall i :: 0 <= i < |s| - 1 ==> !(s[i] == '-' && s[i + 1] == '-')
  }

  predicate IsSlug(s: string) {
    (forall i :: 0 <= i < |s| ==> IsSlugChar(s[i])) && NoDoubleHyphen(s)
  }

  /** `.replace(/[^a-z0-9 -]/g, "")` */
  function StripDisallowed(s: string): (r: string)
    ensures |r| <= |s|
    ensures forall i :: 0 <= i < |r| ==> IsKept(r[i]) && r[i] in s
    ensures forall i :: 0 <= i < |s| && IsKept(s[i]) ==> s[i] in r
  {
    FilterKeepsPassing(s, IsKept);
    Filter(s, IsKept)
  }

  /** The rest of `s` after its leading run of `inRun` characters. */
  function DropRun(s: string, inRun: char -> bool): (t: string)
    ensures |t| <= |s| && t == s[|s| - |t|..]
    ensures forall i :: 0 <= i < |s| - |t| ==> inRun(s[i])
    ensures t != [] ==> !inRun(t[0])
  {
    if s != [] && inRun(s[0]) then
      var t := DropRun(s[1..], inRun);
      assert s[1..][|s| - 1 - |t|..] == s[|s| - |t|..];
      assert forall i :: 1 <= i < |s| - |t| ==> s[i] == s[1..][i - 1];
      t
    else s
  }

  /** `.replace(/x+/g, r)`: every maximal run of `inRun` characters becomes one `r`. */
  function ReplaceRuns(s: string, inRun: char -> bool, r: char): (t: string)
    ensures |t| <= |s|
    ensures |t| == 0 <==> |s| == 0
    decreases |s|
  {
    if s == [] then []
    else if inRun(s[0]) then [r] + ReplaceRuns(DropRun(s, inRun), inRun, r)
    else [s[0]] + ReplaceRuns(s[1..], inRun, r)
  }

  /** `generateSlug`: lower-case, strip, replace whitespace runs, collapse hyphen runs, trim. */
  function GenerateSlug(name: string): (slug: string)
    // only `a`-`z`, `0`-`9` and `-`, never two hyphens in a row
    ensures IsSlug(slug)
  {
    var lowered := ToLower(name);
    var stripped := StripDisallowed(lowered);
    var spaced := ReplaceRuns(stripped, IsWhitespace, '-');
    var collapsed := ReplaceRuns(spaced, IsHyphen, '-');
    CollapsedIsSlug(name);
    SlugIsTrimmed(collapsed);
    Trim(collapsed)
  }

  /** Each character of `ReplaceRuns(s, inRun, r)` is `r` or a character of `s` outside the runs. */
  lemma {:induction false} ReplaceRunsChars(s: string, inRun: char -> bool, r: char, P: char -> bool)
    requires P(r)
    requires forall i :: 0 <= i < |s| && !inRun(s[i]) ==> P(s[i])
    ensures forall i :: 0 <= i < |ReplaceRuns(s, inRun, r)| ==> P(ReplaceRuns(s, inRun, r)[i])
    decreases |s|
  {
    if s != [] {
      if inRun(s[0]) {
        var t := DropRun(s, inRun);
        assert forall i :: 0 <= i < |t| ==> t[i] == s[|s| - |t| + i];
        ReplaceRunsChars(t, inRun, r, P);
      } else {
        ReplaceRunsChars(s[1..], inRun, r, P);
      }
    }
  }

  /** The output of `ReplaceRuns` starts with `r` exactly when the input starts with a run. */
  lemma ReplaceRunsHead(s: string, inRun: char -> bool, r: char)
    requires s != []
    ensures ReplaceRuns(s, inRun, r)[0] == if inRun(s[0]) then r else s[0]
  {
  }

  /** Replacing hyphen runs by one hyphen leaves no two hyphens side by side. */
  lemma {:induction false} CollapsedHasNoDoubleHyphen(s: string)
    ensures NoDoubleHyphen(ReplaceRuns(s, IsHyphen, '-'))
    decreases |s|
  {
    if s != [] {
      var rest := if IsHyphen(s[0]) then DropRun(s, IsHyphen) else s[1..];
      CollapsedHasNoDoubleHyphen(rest);
      var out := ReplaceRuns(rest, IsHyphen, '-');
      assert ReplaceRuns(s, IsHyphen, '-') == [if IsHyphen(s[0]) then '-' else s[0]] + out;
      if IsHyphen(s[0]) && rest != [] {
        ReplaceRunsHead(rest, IsHyphen, '-');
      }
    }
  }

  /** Without any run character, `ReplaceRuns` is the identity. */
  lemma {:induction false} ReplaceRunsNoRun(s: string, inRun: char -> bool, r: char)
    requires forall i :: 0 <= i < |s| ==> !inRun(s[i])
    ensures ReplaceRuns(s, inRun, r) == s
    decreases |s|
  {
    if s != [] {
      ReplaceRunsNoRun(s[1..], inRun, r);
    }
  }

  /** When every run is a single `r` already, `ReplaceRuns` is the identity. */
  lemma {:induction false} ReplaceRunsSingleRuns(s: string, inRun: char -> bool, r: char)
    requires forall i :: 0 <= i < |s| && inRun(s[i]) ==> s[i] == r
    requires forall i :: 0 <= i < |s| - 1 ==> !(inRun(s[i]) && inRun(s[i + 1]))
    ensures ReplaceRuns(s, inRun, r) == s
    decreases |s|
  {
    if s != [] {
      var t := s[1..];
      assert forall i :: 0 <= i < |t| ==> t[i] == s[i + 1];
      ReplaceRunsSingleRuns(t, inRun, r);
      assert s == [s[0]] + t;
      if inRun(s[0]) {
        assert t == [] || !inRun(t[0]);
        assert DropRun(s, inRun) == t;
        assert ReplaceRuns(s, inRun, r) == [r] + ReplaceRuns(t, inRun, r);
      } else {
        assert ReplaceRuns(s, inRun, r) == [s[0]] + ReplaceRuns(t, inRun, r);
      }
    }
  }

  /** Run replacement keeps the characters `q` selects when neither runs nor `r` are selected. */
  lemma {:induction false} ReplaceRunsKeeps(s: string, inRun: char -> bool, r: char, q: char -> bool)
    requires !q(r)
    requires forall c :: inRun(c) ==> !q(c)
    ensures Filter(ReplaceRuns(s, inRun, r), q) == Filter(s, q)
    decreases |s|
  {
    if s != [] {
      if inRun(s[0]) {
        var t := DropRun(s, inRun);
        var k := |s| - |t|;
        assert s == s[..k] + t;
        FilterAppend(s[..k], t, q);
        FilterDropsAll(s[..k], q);
        ReplaceRunsKeeps(t, inRun, r, q);
        FilterAppend([r], ReplaceRuns(t, inRun, r), q);
        assert [r][1..] == [];
      } else {
        ReplaceRunsKeeps(s[1..], inRun, r, q);
        FilterAppend([s[0]], ReplaceRuns(s[1..], inRun, r), q);
        assert [s[0]][1..] == [];
      }
    }
  }

  lemma SlugCharIsNotWhitespace(c: char)
    requires IsSlugChar(c)
    ensures !IsWhitespace(c)
  {
  }

  /** A slug has no whitespace, so `trim` leaves it alone. */
  lemma SlugIsTrimmed(s: string)
    requires IsSlug(s)
    ensures Trim(s) == s
  {
    forall i | 0 <= i < |s| ensures !IsWhitespace(s[i]) {
      SlugCharIsNotWhitespace(s[i]);
    }
  }

  /** The string before trimming is already made of slug characters with no double hyphen. */
  lemma CollapsedIsSlug(name: string)
    ensures IsSlug(ReplaceRuns(ReplaceRuns(StripDisallowed(ToLower(name)), IsWhitespace, '-'), IsHyphen, '-'))
  {
    var stripped := StripDisallowed(ToLower(name));
    var spaced := ReplaceRuns(stripped, IsWhitespace, '-');
    ReplaceRunsChars(stripped, IsWhitespace, '-', IsSlugChar);
    ReplaceRunsChars(spaced, IsHyphen, '-', IsSlugChar);
    CollapsedHasNoDoubleHyphen(spaced);
  }

  /** The final `trim` never changes anything: no whitespace survives the earlier steps. */
  lemma TrimIsNoOp(name: string)
    ensures GenerateSlug(name) == ReplaceRuns(ReplaceRuns(StripDisallowed(ToLower(name)), IsWhitespace, '-'), IsHyphen, '-')
  {
    var collapsed := ReplaceRuns(ReplaceRuns(StripDisallowed(ToLower(name)), IsWhitespace, '-'), IsHyphen, '-');
    CollapsedIsSlug(name);
    SlugIsTrimmed(collapsed);
  }

  /** The three rewrites before `trim` keep the letters and digits of the lower-cased name, in order. */
  lemma CollapsedKeepsLettersAndDigits(lowered: string)
    ensures Filter(ReplaceRuns(ReplaceRuns(StripDisallowed(lowered), IsWhitespace, '-'), IsHyphen, '-'), IsLowerAlnum)
            == Filter(lowered, IsLowerAlnum)
  {
    var stripped := StripDisallowed(lowered);
    var spaced := ReplaceRuns(stripped, IsWhitespace, '-');
    ReplaceRunsKeeps(spaced, IsHyphen, '-', IsLowerAlnum);
    ReplaceRunsKeeps(stripped, IsWhitespace, '-', IsLowerAlnum);
    FilterFilter(lowered, IsKept, IsLowerAlnum);
  }

  /** Deleting the hyphens from the slug gives the letters and digits of the lower-cased name, in order. */
  lemma SlugKeepsLettersAndDigits(name: string)
    ensures Filter(GenerateSlug(name), IsNotHyphen) == Filter(ToLower(name), IsLowerAlnum)
  {
    var slug := GenerateSlug(name);
    assert forall i :: 0 <= i < |slug| ==> IsNotHyphen(slug[i]) == IsLowerAlnum(slug[i]);
    FilterCongruent(slug, IsNotHyphen, IsLowerAlnum);
    TrimIsNoOp(name);
    CollapsedKeepsLettersAndDigits(ToLower(name));
  }

  /** A slug is its own slug. */
  lemma SlugOfSlug(s: string)
    requires IsSlug(s)
    ensures GenerateSlug(s) == s
  {
    assert ToLower(s) == s by { ToLowerNoCapitals(s); }
    assert StripDisallowed(s) == s by { FilterKeepsAll(s, IsKept); }
    assert ReplaceRuns(s, IsWhitespace, '-') == s by {
      forall i | 0 <= i < |s| ensures !IsWhitespace(s[i]) {
        SlugCharIsNotWhitespace(s[i]);
      }
      ReplaceRunsNoRun(s, IsWhitespace, '-');
    }
    assert ReplaceRuns(s, IsHyphen, '-') == s by {
      ReplaceRunsSingleRuns(s, IsHyphen, '-');
    }
    SlugIsTrimmed(s);
  }

  /** `generateSlug` is idempotent. */
  lemma SlugIdempotent(name: string)
    ensures GenerateSlug(GenerateSlug(name)) == GenerateSlug(name)
  {
    SlugOfSlug(GenerateSlug(name));
  }

  /** A space followed by a slug (that does not start with a hyphen) turns into a hyphen. */
  lemma SpaceRunBecomesHyphen(s: string)
    requires IsSlug(s)
    ensures ReplaceRuns(" " + s, IsWhitespace, '-') == "-" + s
  {
    var name := " " + s;
    assert name[1..] == s;
    forall i | 0 <= i < |s| ensures !IsWhitespace(s[i]) {
      SlugCharIsNotWhitespace(s[i]);
    }
    if s != [] {
      SlugCharIsNotWhitespace(s[0]);
    }
    assert DropRun(name, IsWhitespace) == s;
    ReplaceRunsNoRun(s, IsWhitespace, '-');
  }

  /** A hyphen in front of a slug that does not start with one leaves a slug. */
  lemma HyphenBeforeSlug(s: string)
    requires IsSlug(s) && (s == [] || s[0] != '-')
    ensures ReplaceRuns("-" + s, IsHyphen, '-') == "-" + s
  {
    var h := "-" + s;
    forall i | 0 <= i < |h| - 1 ensures !(IsHyphen(h[i]) && IsHyphen(h[i + 1])) {
      if i > 0 {
        assert h[i] == s[i - 1] && h[i + 1] == s[i];
      }
    }
    ReplaceRunsSingleRuns(h, IsHyphen, '-');
  }

  /** A leading space is not trimmed away: it becomes a leading hyphen (" a" gives "-a"). */
  lemma LeadingSpaceBecomesHyphen(s: string)
    requires IsSlug(s) && (s == [] || s[0] != '-')
    ensures GenerateSlug(" " + s) == "-" + s
  {
    var name := " " + s;
    assert forall i :: 0 <= i < |s| ==> name[i + 1] == s[i];
    assert ToLower(name) == name by { ToLowerNoCapitals(name); }
    assert StripDisallowed(name) == name by { FilterKeepsAll(name, IsKept); }
    SpaceRunBecomesHyphen(s);
    HyphenBeforeSlug(s);
    TrimIsNoOp(name);
  }

  /** One run character between two run-free stretches becomes exactly one `r`. */
  lemma {:induction false} ReplaceRunsOneSeparator(a: string, c: char, b: string, inRun: char -> bool, r: char)
    requires inRun(c)
    requires forall i :: 0 <= i < |a| ==> !inRun(a[i])
    requires forall i :: 0 <= i < |b| ==> !inRun(b[i])
    ensures ReplaceRuns(a + [c] + b, inRun, r) == a + [r] + b
    decreases |a|
  {
    var s := a + [c] + b;
    if a == [] {
      assert s == [c] + b;
      assert DropRun(s, inRun) == b by {
        assert s[1..] == b;
      }
      assert ReplaceRuns(s, inRun, r) == [r] + ReplaceRuns(b, inRun, r);
      ReplaceRunsNoRun(b, inRun, r);
      assert a + [r] + b == [r] + b;
    } else {
      assert s[0] == a[0] && !inRun(a[0]);
      assert s[1..] == a[1..] + [c] + b;
      assert ReplaceRuns(s, inRun, r) == [a[0]] + ReplaceRuns(a[1..] + [c] + b, inRun, r);
      ReplaceRunsOneSeparator(a[1..], c, b, inRun, r);
      assert a == [a[0]] + a[1..];
      assert a + [r] + b == [a[0]] + (a[1..] + [r] + b);
    }
  }

  /** A slug followed by a hyphen, when the slug does not end with one, keeps its single hyphens. */
  lemma HyphenAfterSlug(s: string)
    requires IsSlug(s) && (s == [] || s[|s| - 1] != '-')
    ensures ReplaceRuns(s + "-", IsHyphen, '-') == s + "-"
  {
    var h := s + "-";
    forall i | 0 <= i < |h| - 1 ensures !(IsHyphen(h[i]) && IsHyphen(h[i + 1])) {
      if i < |s| - 1 {
        assert h[i] == s[i] && h[i + 1] == s[i + 1];
      } else {
        assert i == |s| - 1 && h[i] == s[|s| - 1];
      }
    }
    ReplaceRunsSingleRuns(h, IsHyphen, '-');
  }

  /** A trailing space is not trimmed away either: it becomes a trailing hyphen ("a " gives "a-"). */
  lemma TrailingSpaceBecomesHyphen(s: string)
    requires IsSlug(s) && (s == [] || s[|s| - 1] != '-')
    ensures GenerateSlug(s + " ") == s + "-"
  {
    var name := s + " ";
    assert forall i :: 0 <= i < |s| ==> name[i] == s[i];
    assert ToLower(name) == name by { ToLowerNoCapitals(name); }
    assert StripDisallowed(name) == name by { FilterKeepsAll(name, IsKept); }
    forall i | 0 <= i < |s| ensures !IsWhitespace(s[i]) {
      SlugCharIsNotWhitespace(s[i]);
    }
    ReplaceRunsOneSeparator(s, ' ', [], IsWhitespace, '-');
    assert s + [' '] + [] == name && s + ['-'] + [] == s + "-";
    HyphenAfterSlug(s);
    TrimIsNoOp(name);
  }

  /** Two lower-case words around one space are joined by one hyphen at both replacement steps. */
  lemma WordsJoinedByHyphen(a: string, b: string)
    requires forall i :: 0 <= i < |a| ==> IsLowerAlnum(a[i])
    requires forall i :: 0 <= i < |b| ==> IsLowerAlnum(b[i])
    ensures ReplaceRuns(ReplaceRuns(a + " " + b, IsWhitespace, '-'), IsHyphen, '-') == a + "-" + b
  {
    ReplaceRunsOneSeparator(a, ' ', b, IsWhitespace, '-');
    ReplaceRunsOneSeparator(a, '-', b, IsHyphen, '-');
  }

  /** A name whose kept characters are two lower-case words around one space gets them joined by a hyphen. */
  lemma TwoWordSlug(name: string, a: string, b: string)
    requires StripDisallowed(ToLower(name)) == a + " " + b
    requires forall i :: 0 <= i < |a| ==> IsLowerAlnum(a[i])
    requires forall i :: 0 <= i < |b| ==> IsLowerAlnum(b[i])
    ensures GenerateSlug(name) == a + "-" + b
  {
    TrimIsNoOp(name);
    WordsJoinedByHyphen(a, b);
  }

  /**
   * Lower-casing "Relaxed Trousers!!" gives "relaxed trousers!!". Here and in
   * `RelaxedTrousersSlug` the literals are passed as parameters fixed by the
   * `requires`, so the verifier does not unfold the string functions on them eagerly.
   */
  lemma RelaxedTrousersLowered(name: string, words: string, tail: string)
    requires name == "Relaxed Trousers!!" && words == "relaxed trousers" && tail == "!!"
    ensures ToLower(name) == words + tail
  {
    var lowered := words + tail;
    assert |ToLower(name)| == |lowered|;
    forall i | 0 <= i < |name| ensures ToLower(name)[i] == lowered[i] {
    }
  }

  /** Stripping keeps a run of kept characters and drops a tail of disallowed ones. */
  lemma StripDropsTail(words: string, tail: string)
    requires forall i :: 0 <= i < |words| ==> IsKept(words[i])
    requires forall i :: 0 <= i < |tail| ==> !IsKept(tail[i])
    ensures StripDisallowed(words + tail) == words
  {
    FilterAppend(words, tail, IsKept);
    FilterKeepsAll(words, IsKept);
    FilterDropsAll(tail, IsKept);
  }

  /** "Relaxed Trousers!!" gives "relaxed-trousers". */
  lemma RelaxedTrousersSlug(name: string, a: string, b: string)
    requires name == "Relaxed Trousers!!" && a == "relaxed" && b == "trousers"
    ensures GenerateSlug(name) == a + "-" + b
  {
    var words, tail := a + " " + b, "!!";
    RelaxedTrousersLowered(name, words, tail);
    assert forall i :: 0 <= i < |words| ==> IsKept(words[i]);
    StripDropsTail(words, tail);
    TwoWordSlug(name, a, b);
  }

  // ---------------------------------------------------------------------------
  // calculateDiscountedPrice
  // ---------------------------------------------------------------------------

  /** `price - price * discountPercentage / 100`, on exact reals. */
  function DiscountedPrice(price: real, discountPercentage: real): (r: real)
    ensures discountPercentage == 0.0 ==> r == price
    ensures discountPercentage == 100.0 ==> r == 0.0
    ensures price >= 0.0 && 0.0 <= discountPercentage <= 100.0 ==> 0.0 <= r <= price
  {
    price - (price * discountPercentage) / 100.0
  }

  /** The discounted price is the fraction (100 - discount) / 100 of the price. */
  lemma DiscountedPriceFactored(price: real, discountPercentage: real)
    ensures DiscountedPrice(price, discountPercentage) == price * ((100.0 - discountPercentage) / 100.0)
  {
  }

}
