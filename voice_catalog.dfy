/** The voice catalog index and filter of the text-to-voice form: the sorted
    list of distinct language codes offered in the language picker, and the
    voices that match the selected language and gender. */
module VoiceCatalog {
  import opened Types
  import opened Strings

  /** The gender picker: `'ALL'` or one `ssmlGender` value. */
  datatype GenderFilter = AllGenders | OnlyGender(gender: SsmlGender)

  // ---------------------------------------------------------------------
  // availableLanguages
  // ---------------------------------------------------------------------

  /** Some voice of the catalog lists `code` among its language codes. */
  ghost predicate Offers(voices: seq<GoogleTtsVoice>, code: string)
  {
    exists i :: 0 <= i < |voices| && code in voices[i].languageCodes
  }

  /** `voices.flatMap(v => v.languageCodes)`. */
  function AllLanguageCodes(voices: seq<GoogleTtsVoice>): (codes: seq<string>)
    ensures forall c :: c in codes <==> Offers(voices, c)
  {
    if voices == [] then []
    else
      var rest := AllLanguageCodes(voices[1..]);
      assert forall c :: Offers(voices, c) <==> c in voices[0].languageCodes || Offers(voices[1..], c) by {
        forall c
          ensures Offers(voices, c) <==> c in voices[0].languageCodes || Offers(voices[1..], c)
        {
          if Offers(voices, c) {
            var i :| 0 <= i < |voices| && c in voices[i].languageCodes;
            if i > 0 { assert voices[1..][i - 1] == voices[i]; }
          }
          if Offers(voices[1..], c) {
            var i :| 0 <= i < |voices[1..]| && c in voices[1..][i].languageCodes;
            assert voices[i + 1] == voices[1..][i];
          }
        }
      }
      voices[0].languageCodes + rest
  }

  /** Adds `x` to a strictly sorted list unless it is already there. */
  function InsertSorted(s: seq<string>, x: string): (r: seq<string>)
    requires StrictlySorted(s)
    ensures StrictlySorted(r)
    ensures forall y :: y in r <==> y in s || y == x
    decreases |s|
  {
    if s == [] then [x]
    else if x == s[0] then s
    else if LexLess(x, s[0]) then
      assert forall j :: 0 <= j < |s| ==> LexLess(x, s[j]) by {
        forall j | 0 <= j < |s|
          ensures LexLess(x, s[j])
        {
          if j > 0 { LexLessTransitive(x, s[0], s[j]); }
        }
      }
      [x] + s
    else
      LexLessTotal(x, s[0]);
      assert StrictlySorted(s[1..]);
      var tail := InsertSorted(s[1..], x);
      assert forall y :: y in tail ==> LexLess(s[0], y) by {
        forall y | y in tail
          ensures LexLess(s[0], y)
        {
          if y != x {
            var j :| 0 <= j < |s[1..]| && s[1..][j] == y;
            assert s[j + 1] == y;
          }
        }
      }
      assert s == [s[0]] + s[1..];
      [s[0]] + tail
  }

  /** The distinct strings of `xs`, in sort order. */
  function SortDistinct(xs: seq<string>): (r: seq<string>)
    ensures StrictlySorted(r)
    ensures forall y :: y in r <==> y in xs
  {
    if xs == [] then []
    else
      var init := SortDistinct(xs[..|xs| - 1]);
      assert xs == xs[..|xs| - 1] + [xs[|xs| - 1]];
      InsertSorted(init, xs[|xs| - 1])
  }

  /** `availableLanguages`: `Array.from(new Set(flatMap(...))).sort()`. */
  function AvailableLanguages(voices: seq<GoogleTtsVoice>): (langs: seq<string>)
    ensures StrictlySorted(langs)
    ensures forall c :: c in langs <==> Offers(voices, c)
  {
    SortDistinct(AllLanguageCodes(voices))
  }

  lemma AvailableLanguagesHasNoDuplicates(voices: seq<GoogleTtsVoice>)
    ensures var langs := AvailableLanguages(voices);
      forall i, j :: 0 <= i < |langs| && 0 <= j < |langs| && i != j ==> langs[i] != langs[j]
  {
    StrictlySortedHasNoDuplicates(AvailableLanguages(voices));
  }

  /** The language list depends only on which codes occur, not on the order
      or repetition of the voices: it is the one sorted listing of them. */
  lemma AvailableLanguagesCanonical(voices: seq<GoogleTtsVoice>, other: seq<GoogleTtsVoice>)
    requires forall c :: Offers(voices, c) <==> Offers(other, c)
    ensures AvailableLanguages(voices) == AvailableLanguages(other)
  {
    StrictlySortedUnique(AvailableLanguages(voices), AvailableLanguages(other));
  }

  lemma AvailableLanguagesOrderIndependent(a: seq<GoogleTtsVoice>, b: seq<GoogleTtsVoice>)
    ensures AvailableLanguages(a + b) == AvailableLanguages(b + a)
  {
    forall c
      ensures Offers(a + b, c) <==> Offers(b + a, c)
    {
      if Offers(a + b, c) {
        var i :| 0 <= i < |a + b| && c in (a + b)[i].languageCodes;
        if i < |a| { assert (b + a)[|b| + i] == a[i]; } else { assert (b + a)[i - |a|] == b[i - |a|]; }
      }
      if Offers(b + a, c) {
        var i :| 0 <= i < |b + a| && c in (b + a)[i].languageCodes;
        if i < |b| { assert (a + b)[|a| + i] == b[i]; } else { assert (a + b)[i - |b|] == a[i - |b|]; }
      }
    }
    AvailableLanguagesCanonical(a + b, b + a);
  }

  // ---------------------------------------------------------------------
  // filteredVoices
  // ---------------------------------------------------------------------

  /** The predicate passed to `googleVoices.filter`. */
  predicate Matches(v: GoogleTtsVoice, language: string, gender: GenderFilter)
    ensures gender == AllGenders ==> (Matches(v, language, gender) <==> language in v.languageCodes)
    ensures gender.OnlyGender? ==>
      (Matches(v, language, gender) <==> language in v.languageCodes && v.ssmlGender == gender.gender)
  {
    language in v.languageCodes && (gender.OnlyGender? ==> v.ssmlGender == gender.gender)
  }

  /** `sub` is `s` with some elements dropped and the rest kept in order. */
  predicate IsSubsequence<T(==)>(sub: seq<T>, s: seq<T>)
    decreases |s|
  {
    if sub == [] then true
    else if s == [] then false
    else if sub[0] == s[0] then IsSubsequence(sub[1..], s[1..])
    else IsSubsequence(sub, s[1..])
  }

  function FilterVoices(voices: seq<GoogleTtsVoice>, language: string, gender: GenderFilter): (kept: seq<GoogleTtsVoice>)
    ensures IsSubsequence(kept, voices)
    ensures forall v :: v in kept ==> Matches(v, language, gender)
    ensures forall v :: Matches(v, language, gender) ==> multiset(kept)[v] == multiset(voices)[v]
  {
    if voices == [] then []
    else
      var rest := FilterVoices(voices[1..], language, gender);
      assert voices == [voices[0]] + voices[1..];
      if Matches(voices[0], language, gender) then [voices[0]] + rest else rest
  }

  /** `filteredVoices`: the catalog voices that list the selected language
      and, unless the gender filter is `'ALL'`, have the selected gender. */
  function FilteredVoices(voices: seq<GoogleTtsVoice>, language: string, gender: GenderFilter): (kept: seq<GoogleTtsVoice>)
    ensures IsSubsequence(kept, voices)
    ensures forall v :: v in kept <==> v in voices && Matches(v, language, gender)
    ensures forall v :: Matches(v, language, gender) ==> multiset(kept)[v] == multiset(voices)[v]
    ensures forall v :: v in kept ==> language in v.languageCodes
    ensures gender.OnlyGender? ==> forall v :: v in kept ==> v.ssmlGender == gender.gender
    ensures gender == AllGenders ==> forall v :: v in kept <==> v in voices && language in v.languageCodes
  {
    if |voices| == 0 then []
    else
      var kept := FilterVoices(voices, language, gender);
      assert forall v :: v in kept ==> v in voices by {
        forall v | v in kept
          ensures v in voices
        {
          SubsequenceMembers(kept, voices, v);
        }
      }
      assert forall v :: v in voices && Matches(v, language, gender) ==> v in kept by {
        forall v | v in voices && Matches(v, language, gender)
          ensures v in kept
        {
          assert multiset(voices)[v] > 0;
        }
      }
      kept
  }

  lemma {:induction false} SubsequenceMembers<T>(sub: seq<T>, s: seq<T>, x: T)
    requires IsSubsequence(sub, s) && x in sub
    ensures x in s
    decreases |s|
  {
    if sub[0] == s[0] {
      if x != sub[0] {
        assert x in sub[1..];
        SubsequenceMembers(sub[1..], s[1..], x);
      }
    } else {
      SubsequenceMembers(sub, s[1..], x);
    }
  }

  lemma FilteredVoicesOfEmptyCatalog(language: string, gender: GenderFilter)
    ensures FilteredVoices([], language, gender) == []
    ensures AvailableLanguages([]) == []
  {
  }

  /** Filtering twice with the same settings changes nothing. */
  lemma {:induction false} FilterVoicesIdempotent(voices: seq<GoogleTtsVoice>, language: string, gender: GenderFilter)
    ensures FilterVoices(FilterVoices(voices, language, gender), language, gender) == FilterVoices(voices, language, gender)
  {
    if voices != [] {
      FilterVoicesIdempotent(voices[1..], language, gender);
    }
  }

  lemma FilteredVoicesIdempotent(voices: seq<GoogleTtsVoice>, language: string, gender: GenderFilter)
    ensures FilteredVoices(FilteredVoices(voices, language, gender), language, gender) == FilteredVoices(voices, language, gender)
  {
    FilterVoicesIdempotent(voices, language, gender);
  }

  /** Filtering never introduces a language: every language of the kept
      voices is offered by the catalog, and a non-empty result always
      offers the selected one. */
  lemma FilteredLanguagesWithinCatalog(voices: seq<GoogleTtsVoice>, language: string, gender: GenderFilter)
    ensures forall c :: c in AvailableLanguages(FilteredVoices(voices, language, gender)) ==> c in AvailableLanguages(voices)
    ensures FilteredVoices(voices, language, gender) != [] ==> language in AvailableLanguages(FilteredVoices(voices, language, gender))
  {
    var kept := FilteredVoices(voices, language, gender);
    forall c | Offers(kept, c)
      ensures Offers(voices, c)
    {
      var i :| 0 <= i < |kept| && c in kept[i].languageCodes;
      assert kept[i] in voices;
      var j :| 0 <= j < |voices| && voices[j] == kept[i];
    }
    if kept != [] {
      assert language in kept[0].languageCodes;
    }
  }

  /** A voice offering two languages keeps both in the filtered language
      list: the list is not narrowed to the selected language alone. */
  lemma FilteredLanguagesMayExceedSelection()
    ensures var en_us := GoogleTtsVoice("a", ["en-US"], Male, 24000);
      var en_gb := GoogleTtsVoice("b", ["en-US", "en-GB"], Female, 24000);
      var kept := FilteredVoices([en_us, en_gb], "en-US", OnlyGender(Female));
      kept == [en_gb] && "en-GB" in AvailableLanguages(kept)
  {
    var en_us := GoogleTtsVoice("a", ["en-US"], Male, 24000);
    var en_gb := GoogleTtsVoice("b", ["en-US", "en-GB"], Female, 24000);
    var kept := FilteredVoices([en_us, en_gb], "en-US", OnlyGender(Female));
    assert FilterVoices([en_gb], "en-US", OnlyGender(Female)) == [en_gb];
    assert [en_us, en_gb][1..] == [en_gb];
    assert kept == [en_gb];
    assert "en-GB" in kept[0].languageCodes;
  }
}
