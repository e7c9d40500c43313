/** Caption text for an upload (`TikTokUploader.generate_description`): the
    series, season/episode and clip number read from the file's stem, one
    caption template, and the hashtag paragraph. */
module Description {
  import opened Wrappers
  import opened Text
  import opened Paths

  /** The placeholder series name; a parsed name equal to it is not shown. */
  const UNKNOWN_SERIES: string := "Невідомий серіал"
  const SERIES_MARK: string := "\U{1F3AC} "
  const EPISODE_MARK: string := "\U{1F4FA} "
  const CLIP_MARK: string := "\U{1F39E}\U{FE0F} "
  const CLIP_WORD: string := "частина "
  const BLOCK_SEPARATOR: string := " | "
  const PARAGRAPH_BREAK: string := "\n\n"

  /** The uploader's configuration file. */
  datatype UploaderConfig = UploaderConfig(
    hashtags: seq<string>,
    descriptionTemplates: seq<string>,
    privacyLevel: string)

  /** The configuration `load_config` writes when there is no file. */
  function DefaultConfig(): (r: UploaderConfig)
    ensures |r.hashtags| == 4 && |r.descriptionTemplates| == 4
    ensures r.privacyLevel == "PUBLIC_TO_EVERYONE"
  {
    UploaderConfig(
      ["#серіал", "#гінніджорджія", "#netflix", "#відео"],
      ["Найкращі моменти з серіалу! \U{1F525}",
       "Це було епічно! \U{1F631}",
       "Хто ще дивиться цей серіал? \U{1F495}",
       "Ваша реакція на цю сцену? \U{1F914}"],
      "PUBLIC_TO_EVERYONE")
  }

  /** `random.choice` on an empty template list raises `IndexError`. */
  datatype DescriptionError = NoTemplates

  /** `tag` occurs at `i` and is immediately followed by a digit: where the
      regular expression `<tag>(\d+)` can match. */
  predicate TagAt(s: string, tag: string, i: nat) {
    i + |tag| < |s| && s[i..i + |tag|] == tag && IsDigit(s[i + |tag|])
  }

  /** The first position at or after `from` where `<tag>(\d+)` matches. */
  function FindTag(s: string, tag: string, from: nat): (r: Option<nat>)
    ensures r.Some? ==> from <= r.value && TagAt(s, tag, r.value)
    ensures r.Some? ==> forall i :: from <= i < r.value ==> !TagAt(s, tag, i)
    ensures r.None? ==> forall i :: from <= i ==> !TagAt(s, tag, i)
    decreases |s| - from
  {
    if from + |tag| >= |s| then None
    else if TagAt(s, tag, from) then Some(from)
    else FindTag(s, tag, from + 1)
  }

  /** `re.search(tag + r'(\d+)', s).group(1)`: the greedy digit run after the
      leftmost match, or `None` when there is no match. */
  function SearchGroup(s: string, tag: string): (r: Option<string>)
    ensures r.Some? ==> IsNumeral(r.value)
    ensures r.None? <==> forall i :: !TagAt(s, tag, i)
    ensures r.Some? ==> exists i: nat :: (TagAt(s, tag, i) && (forall j: nat :: j < i ==> !TagAt(s, tag, j)) &&
      r.value == DigitRun(s[i + |tag|..]))
  {
    match FindTag(s, tag, 0)
    case None => None
    case Some(i) =>
      var g := DigitRun(s[i + |tag|..]);
      assert g != [] by { assert s[i + |tag|..][0] == s[i + |tag|]; }
      Some(g)
  }

  /** The series name: the stem up to its first '.', stripped, or the
      placeholder when the stem has no '.'. */
  function SeriesName(stem: string): (r: string)
    ensures '.' !in stem ==> r == UNKNOWN_SERIES
  {
    if '.' in stem then Strip(BeforeFirst(stem, '.')) else UNKNOWN_SERIES
  }

  /** The series name of a stem with a '.' is `split(".")[0].strip()`: a
      slice of the text before the first '.' with only white space cut from
      either side. */
  lemma SeriesNameIsStrippedPrefix(stem: string)
    requires '.' in stem
    ensures exists i :: StrippedAt(BeforeFirst(stem, '.'), SeriesName(stem), i)
    ensures '.' !in SeriesName(stem) && Trimmed(SeriesName(stem))
  {
    StripTrims(BeforeFirst(stem, '.'), '.');
    var b := BeforeFirst(stem, '.');
    var left := StripLeft(b);
    var r := StripRight(left);
    var i := |b| - |left|;
    assert SeriesName(stem) == r;
    assert r == b[i..i + |r|];
    assert forall k :: i + |r| <= k < |b| ==> b[k] == left[k - i];
    assert StrippedAt(b, r, i);
  }

  /** `r` is the slice of `b` at `i`, and every other character of `b` is
      white space. */
  ghost predicate StrippedAt(b: string, r: string, i: nat) {
    i + |r| <= |b| && r == b[i..i + |r|] &&
    (forall k :: 0 <= k < i ==> IsSpace(b[k])) &&
    (forall k :: i + |r| <= k < |b| ==> IsSpace(b[k]))
  }

  /** What `generate_description` reads from a stem: the series name, and
      the digits after "S", "E" and "clip_" when the regular expressions match. */
  datatype StemFields = StemFields(series: string, season: Option<string>, episode: Option<string>, clip: Option<string>)

  function ParseStem(stem: string): (r: StemFields)
    ensures r.season.None? <==> forall i :: !TagAt(stem, "S", i)
    ensures r.episode.None? <==> forall i :: !TagAt(stem, "E", i)
    ensures r.clip.None? <==> forall i :: !TagAt(stem, "clip_", i)
  {
    StemFields(SeriesName(stem), SearchGroup(stem, "S"), SearchGroup(stem, "E"), SearchGroup(stem, "clip_"))
  }

  /** The description's blocks, in order: series, "S.. E..", clip number (each
      only when found) and finally the chosen template. */
  function BlocksOf(f: StemFields, template: string): (r: seq<string>)
    ensures 1 <= |r| <= 4 && r[|r| - 1] == template
  {
    (if f.series != UNKNOWN_SERIES then [SERIES_MARK + f.series] else []) +
    (if f.season.Some? && f.episode.Some? then [EPISODE_MARK + "S" + f.season.value + " E" + f.episode.value] else []) +
    (if f.clip.Some? then [CLIP_MARK + CLIP_WORD + f.clip.value] else []) +
    [template]
  }

  /** Which blocks a caption has: one per field found, the series block first
      when the stem names a series, the clip block just before the template,
      and the template always last. */
  lemma BlocksLayout(f: StemFields, template: string)
    ensures |BlocksOf(f, template)| == 1 + (if f.series != UNKNOWN_SERIES then 1 else 0) +
      (if f.season.Some? && f.episode.Some? then 1 else 0) + (if f.clip.Some? then 1 else 0)
    ensures BlocksOf(f, template)[|BlocksOf(f, template)| - 1] == template
    ensures f.series != UNKNOWN_SERIES ==> BlocksOf(f, template)[0] == SERIES_MARK + f.series
    ensures f.clip.Some? ==>
      BlocksOf(f, template)[|BlocksOf(f, template)| - 2] == CLIP_MARK + CLIP_WORD + f.clip.value
    ensures f.season.Some? && f.episode.Some? ==>
      BlocksOf(f, template)[if f.series != UNKNOWN_SERIES then 1 else 0] ==
        EPISODE_MARK + "S" + f.season.value + " E" + f.episode.value
  {
    var seriesBlock := if f.series != UNKNOWN_SERIES then [SERIES_MARK + f.series] else [];
    var episodeBlock := if f.season.Some? && f.episode.Some? then [EPISODE_MARK + "S" + f.season.value + " E" + f.episode.value] else [];
    var clipBlock := if f.clip.Some? then [CLIP_MARK + CLIP_WORD + f.clip.value] else [];
    var parts := seriesBlock + episodeBlock + clipBlock + [template];
    assert BlocksOf(f, template) == parts;
    assert f.clip.Some? ==> parts[|parts| - 2] == clipBlock[0];
    assert f.series != UNKNOWN_SERIES ==> parts[0] == seriesBlock[0];
    assert episodeBlock != [] ==> parts[|seriesBlock|] == episodeBlock[0];
  }

  /** The hashtag line, `" ".join(hashtags)`. */
  function HashtagLine(config: UploaderConfig): string {
    Join(config.hashtags, " ")
  }

  /** The hashtag line is empty without hashtags; otherwise it begins with
      the first hashtag and ends with the last. */
  lemma HashtagLineEnds(config: UploaderConfig)
    ensures config.hashtags == [] ==> HashtagLine(config) == ""
    ensures config.hashtags != [] ==>
      StartsWith(HashtagLine(config), config.hashtags[0]) &&
      EndsWith(HashtagLine(config), config.hashtags[|config.hashtags| - 1])
  {
    if config.hashtags != [] {
      JoinEnds(config.hashtags, " ");
    }
  }

  /** The text after the last block: the hashtag paragraph, if any. */
  function HashtagTail(config: UploaderConfig): (r: string)
    ensures r == "" <==> HashtagLine(config) == ""
    ensures r != "" ==> StartsWith(r, PARAGRAPH_BREAK) && EndsWith(r, HashtagLine(config))
  {
    if HashtagLine(config) != "" then PARAGRAPH_BREAK + HashtagLine(config) else ""
  }

  /** `generate_description(video_path)` with `random.choice` replaced by the
      index `pick`. */
  function GenerateDescription(videoPath: string, config: UploaderConfig, pick: nat): (r: Result<string, DescriptionError>)
    requires config.descriptionTemplates == [] || pick < |config.descriptionTemplates|
    ensures r.Err? <==> config.descriptionTemplates == []
    ensures r.Ok? ==> EndsWith(r.value, config.descriptionTemplates[pick] + HashtagTail(config))
  {
    if config.descriptionTemplates == [] then Err(NoTemplates)
    else
      var template := config.descriptionTemplates[pick];
      var parts := BlocksOf(ParseStem(Stem(videoPath)), template);
      BlocksLayout(ParseStem(Stem(videoPath)), template);
      JoinEnds(parts, BLOCK_SEPARATOR);
      EndsWithAppend(Join(parts, BLOCK_SEPARATOR), template, HashtagTail(config));
      Ok(Join(parts, BLOCK_SEPARATOR) + HashtagTail(config))
  }

  /** A one-letter tag that is not a digit is found right after a prefix
      with no match of its own: the letter itself stops any match that
      starts at the prefix's last character. */
  lemma SearchGroupAfter(prefix: string, c: char, rest: string)
    requires !IsDigit(c) && SearchGroup(prefix, [c]) == None
    requires rest != [] && IsDigit(rest[0])
    ensures SearchGroup(prefix + [c] + rest, [c]) == Some(DigitRun(rest))
  {
    var tag := [c];
    var s := prefix + tag + rest;
    assert TagAt(s, tag, |prefix|) by {
      assert s[|prefix|..|prefix| + 1] == tag;
      assert s[|prefix| + 1] == rest[0];
    }
    forall i | 0 <= i < |prefix| ensures !TagAt(s, tag, i) {
      if i + 1 < |prefix| {
        assert s[i..i + 1] == prefix[i..i + 1];
        assert s[i + 1] == prefix[i + 1];
        assert !TagAt(prefix, tag, i);
      } else {
        assert s[i + 1] == c;
      }
    }
    assert FindTag(s, tag, 0) == Some(|prefix|);
    assert s[|prefix| + 1..] == rest;
  }

  /** Text without the tag's letter adds no match, provided it cannot
      complete one begun by the last character before it. */
  lemma NoTagInAppend(s: string, c: char, t: string)
    requires SearchGroup(s, [c]) == None
    requires c !in t
    requires s == [] || t == [] || s[|s| - 1] != c || !IsDigit(t[0])
    ensures SearchGroup(s + t, [c]) == None
  {
    var tag := [c];
    var u := s + t;
    forall i: nat ensures !TagAt(u, tag, i) {
      if i + 1 < |s| {
        assert u[i..i + 1] == s[i..i + 1];
        assert u[i + 1] == s[i + 1];
        assert !TagAt(s, tag, i);
      } else if i + 1 == |s| {
        assert i + 1 < |u| ==> u[i] == s[i] && u[i + 1] == t[0];
        assert i + 1 < |u| ==> u[i..i + 1][0] == u[i];
      } else if i < |u| {
        assert u[i] == t[i - |s|];
        assert u[i..i + 1][0] == u[i];
      }
    }
  }

  /** Without the tag's first character anywhere there is no match. */
  lemma SearchGroupAbsent(s: string, tag: string)
    requires tag != [] && tag[0] !in s
    ensures SearchGroup(s, tag) == None
  {
    forall i: nat ensures !TagAt(s, tag, i) {
      assert i + |tag| <= |s| ==> s[i..i + |tag|][0] == s[i];
    }
  }

  /** The stem of clip `<clipNo>` cut from a source with stem `<base>`. */
  function ClipStem(base: string, clipNo: string): string {
    base + "_clip_" + clipNo
  }

  /** A `_clip_<digits>` suffix is found by the `clip_(\d+)` search whenever
      the text before it has no match of its own: no match can straddle the
      underscore. */
  lemma ClipTagAfterBase(base: string, digits: string)
    requires SearchGroup(base, "clip_") == None
    requires IsNumeral(digits)
    ensures SearchGroup(ClipStem(base, digits), "clip_") == Some(digits)
  {
    var tag := "clip_";
    var s := ClipStem(base, digits);
    var n := |base|;
    assert s[n] == '_';
    assert s[n + 1..n + 6] == tag;
    assert s[n + 6..] == digits;
    assert TagAt(s, tag, n + 1) by { assert s[n + 6] == digits[0]; }
    forall i | 0 <= i < n + 1 ensures !TagAt(s, tag, i) {
      if i == n {
        assert i + |tag| <= |s| ==> s[i..i + |tag|][0] == '_';
      } else if i + 5 < n {
        assert s[i..i + 5] == base[i..i + 5];
        assert s[i + 5] == base[i + 5];
        assert !TagAt(base, tag, i);
      } else if i + 5 == n {
        assert s[i + 5] == '_';
      } else if i == n - 4 {
        assert s[i + 5] == 'c';
      } else {
        assert s[i..i + 5][n - i] == '_';
      }
    }
    assert FindTag(s, tag, 0) == Some(n + 1);
    assert DigitRun(digits) == digits by { DigitRunOfNumeral(digits); }
  }

  /** A string of digits is consumed whole by `\d+`. */
  lemma {:induction false} DigitRunOfNumeral(digits: string)
    requires AllDigits(digits)
    ensures DigitRun(digits) == digits
  {
    if digits != [] {
      DigitRunOfNumeral(digits[1..]);
    }
  }

  /** `\d+` stops at the first non-digit. */
  lemma {:induction false} DigitRunStops(digits: string, rest: string)
    requires AllDigits(digits)
    requires rest != [] && !IsDigit(rest[0])
    ensures DigitRun(digits + rest) == digits
  {
    if digits != [] {
      assert (digits + rest)[1..] == digits[1..] + rest;
      DigitRunStops(digits[1..], rest);
    } else {
      assert digits + rest == rest;
    }
  }

  /** The episode naming convention of the source files:
      "<series>. S<nn> E<nn>. (<title>)". */
  function EpisodeName(series: string, season: string, episode: string, title: string): string {
    series + ". S" + season + " E" + episode + ". (" + title + ")"
  }

  /** The series name read from a clip of an episode. */
  lemma EpisodeSeriesParsed(series: string, season: string, episode: string, title: string, clipNo: string)
    requires Trimmed(series) && '.' !in series
    ensures SeriesName(ClipStem(EpisodeName(series, season, episode, title), clipNo)) == series
  {
    var stem := ClipStem(EpisodeName(series, season, episode, title), clipNo);
    var rest := " S" + season + " E" + episode + ". (" + title + ")_clip_" + clipNo;
    assert stem == series + "." + rest;
    SeriesBeforeDot(series, rest);
  }

  /** The series name of `<series>.<rest>` is `<series>` when it holds no
      '.' and no surrounding white space. */
  lemma SeriesBeforeDot(series: string, rest: string)
    requires Trimmed(series) && '.' !in series
    ensures SeriesName(series + "." + rest) == series
  {
    var stem := series + "." + rest;
    assert stem == series + ['.'] + rest;
    IndexOfAfter(series, '.', rest);
    assert stem[..|series|] == series;
    assert BeforeFirst(stem, '.') == series;
    assert '.' in stem by { assert stem[|series|] == '.'; }
    assert SeriesName(stem) == Strip(series);
    StripTrimmed(series);
  }

  /** The season read from a clip of an episode: the first 'S' followed by digits. */
  lemma EpisodeSeasonParsed(series: string, season: string, episode: string, title: string, clipNo: string)
    requires SearchGroup(series, "S") == None && IsNumeral(season)
    ensures SearchGroup(ClipStem(EpisodeName(series, season, episode, title), clipNo), "S") == Some(season)
  {
    var stem := ClipStem(EpisodeName(series, season, episode, title), clipNo);
    var rest := " E" + episode + ". (" + title + ")_clip_" + clipNo;
    assert stem == (series + ". ") + ['S'] + (season + rest);
    NoTagInAppend(series, 'S', ". ");
    SearchGroupAfter(series + ". ", 'S', season + rest);
    DigitRunStops(season, rest);
  }

  /** The episode read from a clip of an episode: the first 'E' followed by digits. */
  lemma EpisodeNumberParsed(series: string, season: string, episode: string, title: string, clipNo: string)
    requires SearchGroup(series, "E") == None && IsNumeral(season) && IsNumeral(episode)
    ensures SearchGroup(ClipStem(EpisodeName(series, season, episode, title), clipNo), "E") == Some(episode)
  {
    var stem := ClipStem(EpisodeName(series, season, episode, title), clipNo);
    var rest := ". (" + title + ")_clip_" + clipNo;
    var before := series + ". S" + season + " ";
    assert stem == before + ['E'] + (episode + rest);
    NoTagInAppend(series, 'E', ". S");
    assert 'E' !in season by {
      assert forall k :: 0 <= k < |season| ==> season[k] != 'E';
    }
    assert (series + ". S")[|series + ". S"| - 1] == 'S';
    NoTagInAppend(series + ". S", 'E', season);
    assert series + ". S" + season + " " == (series + ". S" + season) + " ";
    NoTagInAppend(series + ". S" + season, 'E', " ");
    SearchGroupAfter(before, 'E', episode + rest);
    DigitRunStops(episode, rest);
  }

  /** The file name of clip `<clipNo>` of `<base>` has stem `<base>_clip_<clipNo>`. */
  lemma ClipFileStem(base: string, clipNo: string)
    requires '/' !in base && IsNumeral(clipNo)
    ensures Stem(ClipStem(base, clipNo) + ".mp4") == ClipStem(base, clipNo)
  {
    var stem := ClipStem(base, clipNo);
    assert stem + ".mp4" == stem + "." + "mp4";
    assert '/' !in stem by {
      assert forall k :: 0 <= k < |clipNo| ==> clipNo[k] != '/';
    }
    StemOfFileName(stem, "mp4");
  }

  /** Episode names hold no '/' of their own. */
  lemma EpisodeNameHasNoSlash(series: string, season: string, episode: string, title: string)
    requires '/' !in series && '/' !in title && IsNumeral(season) && IsNumeral(episode)
    ensures '/' !in EpisodeName(series, season, episode, title)
  {
    assert forall k :: 0 <= k < |season| ==> season[k] != '/';
    assert forall k :: 0 <= k < |episode| ==> episode[k] != '/';
  }

  /** A stem in which every field is found yields all four blocks. */
  lemma BlocksOfFullyParsedStem(series: string, season: string, episode: string, clipNo: string, template: string)
    requires series != UNKNOWN_SERIES
    ensures BlocksOf(StemFields(series, Some(season), Some(episode), Some(clipNo)), template) ==
      [SERIES_MARK + series, EPISODE_MARK + "S" + season + " E" + episode, CLIP_MARK + CLIP_WORD + clipNo, template]
  {
  }

  /** The blocks of a clip of an episode: series, season and episode, clip
      number, template. */
  lemma EpisodeClipBlocks(series: string, season: string, episode: string, title: string,
                          clipNo: string, template: string)
    requires Trimmed(series) && series != UNKNOWN_SERIES
    requires '.' !in series && SearchGroup(series, "S") == None && SearchGroup(series, "E") == None
    requires IsNumeral(season) && IsNumeral(episode) && IsNumeral(clipNo)
    requires SearchGroup(EpisodeName(series, season, episode, title), "clip_") == None
    ensures BlocksOf(ParseStem(ClipStem(EpisodeName(series, season, episode, title), clipNo)), template) ==
      [SERIES_MARK + series, EPISODE_MARK + "S" + season + " E" + episode, CLIP_MARK + CLIP_WORD + clipNo, template]
  {
    var base := EpisodeName(series, season, episode, title);
    EpisodeSeriesParsed(series, season, episode, title, clipNo);
    EpisodeSeasonParsed(series, season, episode, title, clipNo);
    EpisodeNumberParsed(series, season, episode, title, clipNo);
    ClipTagAfterBase(base, clipNo);
    assert ParseStem(ClipStem(base, clipNo)) == StemFields(series, Some(season), Some(episode), Some(clipNo));
    BlocksOfFullyParsedStem(series, season, episode, clipNo, template);
  }

  /** Four blocks joined with the block separator. */
  lemma JoinFourBlocks(a: string, b: string, c: string, d: string)
    ensures Join([a, b, c, d], BLOCK_SEPARATOR) ==
      a + BLOCK_SEPARATOR + b + BLOCK_SEPARATOR + c + BLOCK_SEPARATOR + d
  {
    var sep := BLOCK_SEPARATOR;
    assert [a, b, c, d][1..] == [b, c, d];
    assert [b, c, d][1..] == [c, d];
    assert [c, d][1..] == [d];
    assert Join([c, d], sep) == c + sep + d;
    assert Join([b, c, d], sep) == b + sep + (c + sep + d);
    assert Join([a, b, c, d], sep) == a + sep + (b + sep + (c + sep + d));
  }

  /** Four blocks are joined with the separator, then the hashtag paragraph follows. */
  lemma DescriptionOfFourBlocks(videoPath: string, config: UploaderConfig, pick: nat, a: string, b: string, c: string)
    requires pick < |config.descriptionTemplates|
    requires BlocksOf(ParseStem(Stem(videoPath)), config.descriptionTemplates[pick]) == [a, b, c, config.descriptionTemplates[pick]]
    ensures GenerateDescription(videoPath, config, pick) ==
      Ok(a + BLOCK_SEPARATOR + b + BLOCK_SEPARATOR + c + BLOCK_SEPARATOR + config.descriptionTemplates[pick] + HashtagTail(config))
  {
    JoinFourBlocks(a, b, c, config.descriptionTemplates[pick]);
  }

  /** The caption of a clip cut from an episode file: all three blocks, then
      the template and the hashtag paragraph. */
  lemma EpisodeClipDescription(series: string, season: string, episode: string, title: string,
                               clipNo: string, config: UploaderConfig, pick: nat)
    requires Trimmed(series) && series != UNKNOWN_SERIES
    requires '.' !in series && SearchGroup(series, "S") == None && SearchGroup(series, "E") == None
    requires '/' !in series && '/' !in title
    requires IsNumeral(season) && IsNumeral(episode) && IsNumeral(clipNo)
    requires SearchGroup(EpisodeName(series, season, episode, title), "clip_") == None
    requires pick < |config.descriptionTemplates|
    ensures GenerateDescription(ClipStem(EpisodeName(series, season, episode, title), clipNo) + ".mp4", config, pick) ==
      Ok((SERIES_MARK + series) + BLOCK_SEPARATOR +
         (EPISODE_MARK + "S" + season + " E" + episode) + BLOCK_SEPARATOR +
         (CLIP_MARK + CLIP_WORD + clipNo) + BLOCK_SEPARATOR +
         config.descriptionTemplates[pick] + HashtagTail(config))
  {
    var base := EpisodeName(series, season, episode, title);
    EpisodeNameHasNoSlash(series, season, episode, title);
    ClipFileStem(base, clipNo);
    var template := config.descriptionTemplates[pick];
    EpisodeClipBlocks(series, season, episode, title, clipNo, template);
    DescriptionOfFourBlocks(ClipStem(base, clipNo) + ".mp4", config, pick,
      SERIES_MARK + series, EPISODE_MARK + "S" + season + " E" + episode, CLIP_MARK + CLIP_WORD + clipNo);
  }

  /** A stem in which only the clip number is found yields the clip block
      and the template. */
  lemma BlocksOfClipOnlyStem(episode: Option<string>, clipNo: string, template: string)
    ensures BlocksOf(StemFields(UNKNOWN_SERIES, None, episode, Some(clipNo)), template) ==
      [CLIP_MARK + CLIP_WORD + clipNo, template]
  {
  }

  /** A clip name whose base has no '.' and no season names no series and
      no season. */
  lemma PlainClipStemFields(base: string, clipNo: string)
    requires '.' !in base && SearchGroup(base, "S") == None
    requires IsNumeral(clipNo)
    ensures SeriesName(ClipStem(base, clipNo)) == UNKNOWN_SERIES
    ensures SearchGroup(ClipStem(base, clipNo), "S") == None
  {
    var stem := ClipStem(base, clipNo);
    assert forall k :: 0 <= k < |clipNo| ==> IsDigit(clipNo[k]);
    assert '.' !in stem;
    assert 'S' !in "_clip_" + clipNo;
    assert stem == base + ("_clip_" + clipNo);
    NoTagInAppend(base, 'S', "_clip_" + clipNo);
  }

  /** The caption of a clip cut from a source whose stem names no series
      and no season: just the clip block, the template and the hashtags. */
  lemma PlainClipDescription(base: string, clipNo: string, config: UploaderConfig, pick: nat)
    requires '.' !in base && SearchGroup(base, "S") == None && '/' !in base
    requires SearchGroup(base, "clip_") == None
    requires IsNumeral(clipNo)
    requires pick < |config.descriptionTemplates|
    ensures GenerateDescription(ClipStem(base, clipNo) + ".mp4", config, pick) ==
      Ok((CLIP_MARK + CLIP_WORD + clipNo) + BLOCK_SEPARATOR + config.descriptionTemplates[pick] + HashtagTail(config))
  {
    var stem := ClipStem(base, clipNo);
    var template := config.descriptionTemplates[pick];
    ClipFileStem(base, clipNo);
    PlainClipStemFields(base, clipNo);
    ClipTagAfterBase(base, clipNo);
    assert ParseStem(stem) == StemFields(UNKNOWN_SERIES, None, SearchGroup(stem, "E"), Some(clipNo));
    BlocksOfClipOnlyStem(SearchGroup(stem, "E"), clipNo, template);
    var parts := [CLIP_MARK + CLIP_WORD + clipNo, template];
    assert parts[1..] == [template];
    assert Join(parts, BLOCK_SEPARATOR) == (CLIP_MARK + CLIP_WORD + clipNo) + BLOCK_SEPARATOR + template;
  }
}
