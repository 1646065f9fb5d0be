/** The connection-string normalisation done when the database module is
    loaded (learning-platform/backend/database.py): the setting must be present
    and non-empty; everything from the first `?` on is dropped, because the
    asynchronous driver rejects query parameters such as `sslmode`; and the
    first `postgresql://`, then the first `postgres://`, is rewritten to the
    driver's scheme `postgresql+asyncpg://`. */
module DatabaseUrl {
  import opened Common
  import opened Text

  const AsyncScheme := "postgresql+asyncpg://"
  const LongScheme := "postgresql://"
  const ShortScheme := "postgres://"
  const MissingUrl := "DATABASE_URL environment variable is not set."

  /** The two single replacements, in order. */
  function RewriteScheme(base: string): string {
    ReplaceFirst(ReplaceFirst(base, LongScheme, AsyncScheme), ShortScheme, AsyncScheme)
  }

  /** The value bound to `DATABASE_URL`, from the environment variable of that
      name (`None` when it is unset). */
  function NormalizeDatabaseUrl(env: Option<string>): (r: Result<string>)
    ensures r.Err? <==> env.None? || env.value == ""
    ensures r.Err? ==> r.fault == MissingSetting(MissingUrl)
  {
    if env.None? || env.value == "" then Err(MissingSetting(MissingUrl))
    else Ok(RewriteScheme(Split(env.value, "?")[0]))
  }

  /** The normalised URL holds no `?`. */
  lemma NormalizedHasNoQuery(env: Option<string>)
    requires NormalizeDatabaseUrl(env).Ok?
    ensures '?' !in NormalizeDatabaseUrl(env).value
  {
    var base := Split(env.value, "?")[0];
    CharAbsent(base, '?');
    assert '?' !in AsyncScheme;
  }

  /** Everything from the first `?` on is ignored. */
  lemma QueryIgnored(base: string, query: string)
    requires base != [] && '?' !in base
    ensures NormalizeDatabaseUrl(Some(base + "?" + query)) == NormalizeDatabaseUrl(Some(base))
  {
    AbsentChar(base, "?", '?');
    SplitAfter(base, "?", query);
    SplitAbsent(base, "?");
  }

  /** The driver's scheme has a single colon, right before its slashes. */
  lemma AsyncSchemeParts()
    ensures AsyncScheme == "postgresql+asyncpg" + "://"
    ensures AsyncScheme == "postgresql" + "+async" + "p" + "g://"
    ensures ':' !in "postgresql+asyncpg"
    ensures 'p' !in "+async" && 'p' !in "g://"
  {
  }

  /** One differing character rules out a match. */
  lemma Mismatch(s: string, pat: string, i: int, j: int)
    requires 0 <= j < |pat| && 0 <= i && i + |pat| <= |s|
    requires s[i + j] != pat[j]
    ensures !OccursAt(s, pat, i)
  {
    assert s[i..i + |pat|][j] == s[i + j];
  }

  /** `postgres://` occurs in the driver's scheme followed by any text only
      where it occurs in that text: the rewritten scheme is not rewritten
      again. */
  lemma AsyncSchemeHidesShort(rest: string)
    requires !Contains(rest, ShortScheme)
    ensures !Contains(AsyncScheme + rest, ShortScheme)
  {
    var s := AsyncScheme + rest;
    var n := |AsyncScheme|;
    forall i | 0 <= i <= |s| - |ShortScheme|
      ensures !OccursAt(s, ShortScheme, i)
    {
      if i >= n {
        OccursPastPrefix(AsyncScheme, rest, ShortScheme, i);
        assert !OccursAt(rest, ShortScheme, i - n);
      } else {
        ShortInsideAsyncScheme(s, rest, i);
      }
    }
  }

  /** No match of `postgres://` starts inside the driver's scheme. */
  lemma ShortInsideAsyncScheme(s: string, rest: string, i: int)
    requires s == AsyncScheme + rest
    requires 0 <= i < |AsyncScheme| && i + |ShortScheme| <= |s|
    ensures !OccursAt(s, ShortScheme, i)
  {
    var name := "postgresql+asyncpg";
    AsyncSchemeParts();
    assert ShortScheme[0] == 'p' && ShortScheme[1] == 'o' && ShortScheme[8] == ':';
    if i < 10 {
      // the colon of a match would fall inside the scheme's name
      assert s[i + 8] == AsyncScheme[i + 8] == name[i + 8];
      assert name[i + 8] in name;
      Mismatch(s, ShortScheme, i, 8);
    } else if i < 16 {
      // a match would start with `p`, and there is none among these
      var mid := "+async";
      assert AsyncScheme == "postgresql" + (mid + "p" + "g://");
      assert s[i] == AsyncScheme[i] == mid[i - 10];
      assert mid[i - 10] in mid;
      Mismatch(s, ShortScheme, i, 0);
    } else if i == 16 {
      assert s[17] == AsyncScheme[17] == 'g';
      Mismatch(s, ShortScheme, i, 1);
    } else {
      var tail := "g://";
      assert AsyncScheme == "postgresql+asyncp" + tail;
      assert s[i] == AsyncScheme[i] == tail[i - 17];
      assert tail[i - 17] in tail;
      Mismatch(s, ShortScheme, i, 0);
    }
  }

  /** `postgresql://` does not occur in `postgres://` followed by any text that
      lacks it. */
  lemma ShortSchemeHidesLong(rest: string)
    requires !Contains(rest, LongScheme)
    ensures !Contains(ShortScheme + rest, LongScheme)
  {
    var s := ShortScheme + rest;
    var n := |ShortScheme|;
    var tail := "ostgres://";
    assert ShortScheme == "p" + tail;
    assert LongScheme[0] == 'p' && LongScheme[8] == 'q';
    forall i | 0 <= i <= |s| - |LongScheme|
      ensures !OccursAt(s, LongScheme, i)
    {
      if i >= n {
        OccursPastPrefix(ShortScheme, rest, LongScheme, i);
        assert !OccursAt(rest, LongScheme, i - n);
      } else if i == 0 {
        assert s[8] == ':';
        Mismatch(s, LongScheme, i, 8);
      } else {
        assert s[i] == tail[i - 1];
        assert tail[i - 1] in tail;
        Mismatch(s, LongScheme, i, 0);
      }
    }
  }

  /** The replacement text contains neither pattern. */
  lemma AsyncSchemeHasNeitherPattern()
    ensures !Contains(AsyncScheme, ShortScheme) && !Contains(AsyncScheme, LongScheme)
  {
    AsyncSchemeHidesShort([]);
    assert AsyncScheme + [] == AsyncScheme;
    var name := "postgresql+asyncpg";
    AsyncSchemeParts();
    assert LongScheme[0] == 'p' && LongScheme[10] == ':';
    forall i | 0 <= i <= |AsyncScheme| - |LongScheme|
      ensures !OccursAt(AsyncScheme, LongScheme, i)
    {
      if i == 0 {
        assert AsyncScheme[10] == '+';
        Mismatch(AsyncScheme, LongScheme, i, 10);
      } else if i < 8 {
        assert AsyncScheme[i + 10] == name[i + 10];
        assert name[i + 10] in name;
        Mismatch(AsyncScheme, LongScheme, i, 10);
      } else {
        assert AsyncScheme[8] == 'q';
        Mismatch(AsyncScheme, LongScheme, i, 0);
      }
    }
  }

  /** A `postgresql://` URL comes out with the driver's scheme and the rest as
      it was. */
  lemma LongSchemeRewritten(rest: string)
    requires '?' !in rest && !Contains(rest, ShortScheme)
    ensures NormalizeDatabaseUrl(Some(LongScheme + rest)) == Ok(AsyncScheme + rest)
  {
    var url := LongScheme + rest;
    AbsentChar(url, "?", '?');
    SplitAbsent(url, "?");
    ReplaceFirstAtStart(LongScheme, rest, AsyncScheme);
    AsyncSchemeHidesShort(rest);
  }

  /** A `postgres://` URL comes out with the driver's scheme and the rest as it
      was. */
  lemma ShortSchemeRewritten(rest: string)
    requires '?' !in rest && !Contains(rest, LongScheme)
    ensures NormalizeDatabaseUrl(Some(ShortScheme + rest)) == Ok(AsyncScheme + rest)
  {
    var url := ShortScheme + rest;
    AbsentChar(url, "?", '?');
    SplitAbsent(url, "?");
    ShortSchemeHidesLong(rest);
    ReplaceFirstAtStart(ShortScheme, rest, AsyncScheme);
  }

  /** A non-empty URL with no `?` and neither scheme passes through unchanged. */
  lemma OtherUrlUnchanged(url: string)
    requires url != [] && '?' !in url
    requires !Contains(url, LongScheme) && !Contains(url, ShortScheme)
    ensures NormalizeDatabaseUrl(Some(url)) == Ok(url)
  {
    AbsentChar(url, "?", '?');
    SplitAbsent(url, "?");
  }
}
