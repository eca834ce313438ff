/** The first, single-file version of the bot, src/main.rs: its own colour tables and
    classification, the digest `process` (one detail per accepted problem id, embeds cut by
    `windows(25)`, all sent in one message), the `channel`/`register`/`unregister`/
    `registerlist` commands and the target of `daily_job`. */
module LegacyMain {

  import opened Wrappers
  import opened Seqs
  import opened Text
  import opened Rating
  import opened AtCoderTypes
  import opened Embeds
  import opened Clock
  import opened UserNames
  import opened CommandModel
  import ApiDifficulty
  import DailyJob

  // ---------------------------------------------------------------- colours

  /** `From<Color> for u32`: the named CSS colours, not the AtCoder palette. */
  function Rgb(c: Color): (r: int)
    ensures 0 <= r < 0x100_0000
  {
    match c
    case Black => 0x000000
    case Gray => 0x808080
    case Brown => 0xa52a2a
    case Green => 0x008000
    case Cyan => 0x00ffff
    case Blue => 0x0000ff
    case Yellow => 0xffff00
    case Orange => 0xffa500
    case Red => 0xff0000
  }

  /** The table is injective and gives 0x000000 to `Black` alone. */
  lemma RgbInjective(a: Color, b: Color)
    ensures Rgb(a) == Rgb(b) <==> a == b
    ensures Rgb(a) == 0 <==> a == Black
  {
  }

  /** It differs from the later table of src/api_parsing/difficulty.rs in exactly four entries. */
  lemma RgbDiffersFromApi(c: Color)
    ensures Rgb(c) != ApiDifficulty.Rgb(c) <==> c == Brown || c == Cyan || c == Yellow || c == Orange
  {
  }

  /** `From<Color> for String`; `Black` is `unreachable!()`. */
  function Glyph(c: Color): (r: string)
    requires c != Black
    ensures |r| == 1
  {
    if c == Gray then "灰"
    else if c == Brown then "茶"
    else if c == Green then "緑"
    else if c == Cyan then "水"
    else if c == Blue then "青"
    else if c == Yellow then "黄"
    else if c == Orange then "橙"
    else "赤"
  }

  /** The glyphs are those of the later versions. */
  lemma GlyphAgreesWithApi(c: Color)
    requires c != Black
    ensures Glyph(c) == ApiDifficulty.Glyph(c)
  {
  }

  /** `normalize_difficulty`: the identity from 400 up, else the `as i64` cast of the logistic
      quotient. */
  function NormalizeDifficulty(d: I64, logistic: Logistic): (r: I64)
    ensures d >= 400 ==> r == d
    ensures d < 400 && 0.0 <= logistic(d) < 400.0 ==> 0 <= r < 400
  {
    if d >= 400 then d
    else CastFloat(logistic(d), -0x8000_0000_0000_0000, 0x7FFF_FFFF_FFFF_FFFF)
  }

  /** `difficulty_color`: the 400-wide bands on `0..=2799`, and `Red` for every other `i64`,
      negative ones included. */
  function DifficultyColor(d: I64): (r: Color)
    ensures r != Black
    ensures 0 <= d < 2800 ==> Rank(r) == d / 400 + 1
    ensures d < 0 || d >= 2800 ==> r == Red
  {
    if 0 <= d <= 399 then Gray
    else if 400 <= d <= 799 then Brown
    else if 800 <= d <= 1199 then Green
    else if 1200 <= d <= 1599 then Cyan
    else if 1600 <= d <= 1999 then Blue
    else if 2000 <= d <= 2399 then Yellow
    else if 2400 <= d <= 2799 then Orange
    else Red
  }

  /** On non-negative ratings it is the classification of the later versions. */
  lemma DifficultyColorAgreesWithApi(d: ApiDifficulty.U32)
    ensures DifficultyColor(d) == ApiDifficulty.FromRating(d)
  {
    DeclarationOrder(DifficultyColor(d), ApiDifficulty.FromRating(d));
  }

  // ---------------------------------------------------------------- details

  predicate IsAc(s: SubmissionItem) {
    s.result == "AC"
  }

  /** `solved_ids`: the problem id of every accepted submission, in order, repeats kept. */
  function SolvedIds(subs: seq<SubmissionItem>): (r: seq<string>)
    ensures |r| == |Filter(subs, IsAc)|
    ensures forall i :: 0 <= i < |r| ==> r[i] == Filter(subs, IsAc)[i].problemId
    ensures forall i :: 0 <= i < |r| ==> exists k :: 0 <= k < |subs| && subs[k].problemId == r[i]
  {
    var acc := Filter(subs, IsAc);
    forall i | 0 <= i < |acc| ensures exists k :: 0 <= k < |subs| && subs[k].problemId == acc[i].problemId {
      assert acc[i] in acc;
      var k :| 0 <= k < |subs| && subs[k] == acc[i];
    }
    seq(|acc|, i requires 0 <= i < |acc| => acc[i].problemId)
  }

  /** `submissions.iter().find(|s| s.problem_id == *id)`: the first submission to that
      problem, whatever its verdict. */
  function FirstSubmission(subs: seq<SubmissionItem>, id: string): (r: Option<SubmissionItem>)
    ensures r.None? <==> forall k :: 0 <= k < |subs| ==> subs[k].problemId != id
    ensures r.Some? ==> exists k :: 0 <= k < |subs| && subs[k] == r.value && r.value.problemId == id
                          && forall j :: 0 <= j < k ==> subs[j].problemId != id
    decreases |subs|
  {
    if subs == [] then None
    else if subs[0].problemId == id then Some(subs[0])
    else
      var r := FirstSubmission(subs[1..], id);
      assert r.Some? ==> exists k :: 0 <= k < |subs[1..]| && subs[1..][k] == r.value && r.value.problemId == id
                          && forall j :: 0 <= j < k ==> subs[1..][j].problemId != id;
      r
  }

  /** The detail for one solved id; `find(...).unwrap()` cannot fail, because the id comes
      from one of these submissions. */
  function DetailFor(user: string, id: string, subs: seq<SubmissionItem>, problems: seq<ProblemItem>,
                     models: map<string, ProblemModelItem>): ProblemDetail
    requires exists k :: 0 <= k < |subs| && subs[k].problemId == id
  {
    var problem := ProblemOrDefault(problems, id);
    ProblemDetail(
      problem.title,
      ModelOrDefault(models, id).difficulty,
      FirstSubmission(subs, id).value.language,
      "https://atcoder.jp/contests/" + problem.contestId + "/submissions?f.User=" + user)
  }

  /** `solved_problems`. */
  function Details(user: string, subs: seq<SubmissionItem>, problems: seq<ProblemItem>,
                   models: map<string, ProblemModelItem>): seq<ProblemDetail>
  {
    var ids := SolvedIds(subs);
    seq(|ids|, i requires 0 <= i < |ids| => DetailFor(user, ids[i], subs, problems, models))
  }

  /** One detail per accepted submission, in order. Each takes its language from the first
      submission to the same problem, and its URL lists the user's submissions to that contest. */
  lemma DetailSource(user: string, subs: seq<SubmissionItem>, problems: seq<ProblemItem>,
                     models: map<string, ProblemModelItem>, i: nat)
    requires i < |Filter(subs, IsAc)|
    ensures |Details(user, subs, problems, models)| == |Filter(subs, IsAc)|
    ensures var d := Details(user, subs, problems, models)[i];
      var id := Filter(subs, IsAc)[i].problemId;
      && d.title == ProblemOrDefault(problems, id).title
      && d.difficulty == ModelOrDefault(models, id).difficulty
      && d.submissionUrl == "https://atcoder.jp/contests/" + ProblemOrDefault(problems, id).contestId
                              + "/submissions?f.User=" + user
      && exists k :: 0 <= k < |subs| && subs[k].problemId == id && d.language == subs[k].language
                     && forall j :: 0 <= j < k ==> subs[j].problemId != id
  {
  }

  /** A submission in another language before the accepted one decides the language shown. */
  lemma LanguageOfEarlierAttempt()
    ensures var wa := SubmissionItem(1, 0, "abc001_a", "abc001", "u", "C++", 10, "WA", None);
      var ac := SubmissionItem(2, 1, "abc001_a", "abc001", "u", "Rust", 10, "AC", None);
      Filter([wa, ac], IsAc) == [ac] && Details("u", [wa, ac], [], map[])[0].language == "C++"
  {
    var wa := SubmissionItem(1, 0, "abc001_a", "abc001", "u", "C++", 10, "WA", None);
    var ac := SubmissionItem(2, 1, "abc001_a", "abc001", "u", "Rust", 10, "AC", None);
    assert Filter([wa, ac], IsAc) == [ac] by {
      assert [wa, ac][1..] == [ac];
      assert Filter([ac], IsAc) == [ac] + Filter([], IsAc);
    }
  }

  /** The detail as the later versions build it: from the accepted submission itself. */
  function CorrectedDetails(user: string, subs: seq<SubmissionItem>, problems: seq<ProblemItem>,
                            models: map<string, ProblemModelItem>): (r: seq<ProblemDetail>)
    ensures |r| == |Filter(subs, IsAc)|
    ensures forall i :: 0 <= i < |r| ==> r[i].language == Filter(subs, IsAc)[i].language
  {
    var acc := Filter(subs, IsAc);
    seq(|acc|, i requires 0 <= i < |acc| =>
      var problem := ProblemOrDefault(problems, acc[i].problemId);
      ProblemDetail(
        problem.title,
        ModelOrDefault(models, acc[i].problemId).difficulty,
        acc[i].language,
        "https://atcoder.jp/contests/" + problem.contestId + "/submissions?f.User=" + user))
  }

  // ---------------------------------------------------------------- fields and embeds

  function RatingText(difficulty: Option<I64>, logistic: Logistic): string {
    match difficulty
    case None => Unknown
    case Some(d) =>
      var n := NormalizeDifficulty(d, logistic);
      Decimal(n) + ("(" + Glyph(DifficultyColor(n)) + ")")
  }

  /** `ProblemDetail::to_field`. */
  function ToField(d: ProblemDetail, logistic: Logistic): Field {
    Field(d.title, FieldBody(RatingText(d.difficulty, logistic), d.language, d.submissionUrl), false)
  }

  /** The field names the problem and is not inline; its value starts with "不明" for an
      unknown difficulty, and otherwise with the normalised rating, which a non-negative
      rating's leading digits read back. */
  lemma FieldReportsRating(d: ProblemDetail, logistic: Logistic)
    ensures var f := ToField(d, logistic);
      && f.name == d.title && !f.inline
      && (d.difficulty.None? ==> Unknown <= f.value)
      && (d.difficulty.Some? && NormalizeDifficulty(d.difficulty.value, logistic) >= 0 ==>
            ParseDigits(LeadingDigits(f.value)) == NormalizeDifficulty(d.difficulty.value, logistic))
  {
    var rest := " | " + d.language + " | [提出](" + d.submissionUrl + ")";
    var v := ToField(d, logistic).value;
    if d.difficulty.None? {
      assert v == Unknown + rest;
    } else if NormalizeDifficulty(d.difficulty.value, logistic) >= 0 {
      var n := NormalizeDifficulty(d.difficulty.value, logistic);
      var g := "(" + Glyph(DifficultyColor(n)) + ")";
      NumeralThen(n, g, rest);
    }
  }

  function DetailColor(d: ProblemDetail, logistic: Logistic): Color {
    match d.difficulty
    case None => Black
    case Some(x) => DifficultyColor(NormalizeDifficulty(x, logistic))
  }

  /** `.max().unwrap()` over a window: attained, maximal, `BLACK` only when no difficulty is known. */
  function PageColor(page: seq<ProblemDetail>, logistic: Logistic): (c: Color)
    requires |page| > 0
    ensures exists i :: 0 <= i < |page| && c == DetailColor(page[i], logistic)
    ensures forall i :: 0 <= i < |page| ==> Rank(DetailColor(page[i], logistic)) <= Rank(c)
    ensures c == Black <==> forall i :: 0 <= i < |page| ==> page[i].difficulty.None?
  {
    var cs := seq(|page|, i requires 0 <= i < |page| => DetailColor(page[i], logistic));
    assert forall i :: 0 <= i < |page| ==> cs[i] == DetailColor(page[i], logistic);
    MaxOfBlack(cs);
    MaxOf(cs)
  }

  function PageFields(page: seq<ProblemDetail>, logistic: Logistic): seq<Field> {
    seq(|page|, i requires 0 <= i < |page| => ToField(page[i], logistic))
  }

  /** An embed of this version has neither title nor link. */
  function PageEmbed(page: seq<ProblemDetail>, logistic: Logistic): Embed
    requires |page| > 0
  {
    Embed(None, None, PageFields(page, logistic), Rgb(PageColor(page, logistic)))
  }

  /** `solved_problems.windows(25).map(...)`. */
  function UserEmbeds(user: string, subs: seq<SubmissionItem>, problems: seq<ProblemItem>,
                      models: map<string, ProblemModelItem>, logistic: Logistic): seq<Embed>
  {
    var ws := Windows(Details(user, subs, problems, models), 25);
    seq(|ws|, i requires 0 <= i < |ws| => PageEmbed(ws[i], logistic))
  }

  /** Fewer than 25 accepted submissions give no embed at all; `n >= 25` give `n - 24`
      embeds of exactly 25 fields each, the i-th showing details i to i + 24, so that
      consecutive embeds share 24 fields. */
  lemma UserEmbedsAreWindows(user: string, subs: seq<SubmissionItem>, problems: seq<ProblemItem>,
                             models: map<string, ProblemModelItem>, logistic: Logistic)
    ensures var es := UserEmbeds(user, subs, problems, models, logistic);
      var n := |Filter(subs, IsAc)|;
      var details := Details(user, subs, problems, models);
      && |es| == (if n < 25 then 0 else n - 24)
      && forall i :: 0 <= i < |es| ==>
           i + 25 <= |details| && es[i].fields == PageFields(details[i..i + 25], logistic)
           && |es[i].fields| == 25 && es[i].title.None?
  {
  }

  /** The page cut the later versions use, over the corrected details. */
  function CorrectedUserEmbeds(user: string, subs: seq<SubmissionItem>, problems: seq<ProblemItem>,
                               models: map<string, ProblemModelItem>, logistic: Logistic): seq<Embed>
  {
    var cs := Chunks(CorrectedDetails(user, subs, problems, models), 25);
    seq(|cs|, i requires 0 <= i < |cs| => PageEmbed(cs[i], logistic))
  }

  lemma {:induction false} PageFieldsAppend(a: seq<ProblemDetail>, b: seq<ProblemDetail>, logistic: Logistic)
    ensures PageFields(a + b, logistic) == PageFields(a, logistic) + PageFields(b, logistic)
  {
    var f, g, h := PageFields(a + b, logistic), PageFields(a, logistic), PageFields(b, logistic);
    assert |f| == |g + h|;
    forall i | 0 <= i < |f| ensures f[i] == (g + h)[i] {
      if i < |a| {
        assert (a + b)[i] == a[i] && (g + h)[i] == g[i];
      } else {
        assert (a + b)[i] == b[i - |a|] && (g + h)[i] == h[i - |a|];
      }
    }
  }

  lemma {:induction false} FieldsOfChunks(cs: seq<seq<ProblemDetail>>, logistic: Logistic)
    requires forall i :: 0 <= i < |cs| ==> |cs[i]| > 0
    ensures FieldsOf(seq(|cs|, i requires 0 <= i < |cs| => PageEmbed(cs[i], logistic))) == PageFields(Flatten(cs), logistic)
    decreases |cs|
  {
    if cs != [] {
      var es := seq(|cs|, i requires 0 <= i < |cs| => PageEmbed(cs[i], logistic));
      assert es[1..] == seq(|cs[1..]|, i requires 0 <= i < |cs[1..]| => PageEmbed(cs[1..][i], logistic));
      FieldsOfChunks(cs[1..], logistic);
      PageFieldsAppend(cs[0], Flatten(cs[1..]), logistic);
    }
  }

  /** With the corrected cut, a user has embeds exactly when something was accepted, and
      the embeds' fields are one per accepted submission, each shown once, in order. */
  lemma CorrectedUserEmbedsCover(user: string, subs: seq<SubmissionItem>, problems: seq<ProblemItem>,
                                 models: map<string, ProblemModelItem>, logistic: Logistic)
    ensures var es := CorrectedUserEmbeds(user, subs, problems, models, logistic);
      && (es == [] <==> Filter(subs, IsAc) == [])
      && (forall i :: 0 <= i < |es| ==> 0 < |es[i].fields| <= 25)
      && FieldsOf(es) == PageFields(CorrectedDetails(user, subs, problems, models), logistic)
  {
    FieldsOfChunks(Chunks(CorrectedDetails(user, subs, problems, models), 25), logistic);
  }

  // ---------------------------------------------------------------- process

  predicate AllFetched(users: seq<string>, subs: map<string, seq<SubmissionItem>>) {
    forall u :: u in users ==> u in subs
  }

  function AllEmbeds(users: seq<string>, fetched: map<string, seq<SubmissionItem>>, problems: seq<ProblemItem>,
                     models: map<string, ProblemModelItem>, logistic: Logistic): seq<Embed>
    requires AllFetched(users, fetched)
    decreases |users|
  {
    if users == [] then []
    else
      var last := users[|users| - 1];
      AllEmbeds(users[..|users| - 1], fetched, problems, models, logistic)
        + UserEmbeds(last, fetched[last], problems, models, logistic)
  }

  /** What `process` sends: its channel is given, so a failed fetch is the only error. */
  function Digest(users: seq<string>, fetched: Fetched, logistic: Logistic): Result<seq<Message>, DigestError> {
    if fetched.models.None? || fetched.problems.None? || !AllFetched(users, fetched.submissions) then Failure(Upstream)
    else Success(OneMessage(AllEmbeds(users, fetched.submissions, fetched.problems.value, fetched.models.value, logistic)))
  }

  lemma {:induction false} FewSolvedNoEmbeds(users: seq<string>, fetched: Fetched, logistic: Logistic)
    requires fetched.models.Some? && fetched.problems.Some? && AllFetched(users, fetched.submissions)
    requires forall u :: u in users ==> |Filter(fetched.submissions[u], IsAc)| < 25
    ensures AllEmbeds(users, fetched.submissions, fetched.problems.value, fetched.models.value, logistic) == []
    decreases |users|
  {
    if users != [] {
      var last := users[|users| - 1];
      assert last in users;
      FewSolvedNoEmbeds(users[..|users| - 1], fetched, logistic);
      UserEmbedsAreWindows(last, fetched.submissions[last], fetched.problems.value, fetched.models.value, logistic);
    }
  }

  /** As written, when every user has fewer than 25 accepted submissions the digest says
      nobody got an AC, even when somebody did. */
  lemma FewSolvedSendsFallback(users: seq<string>, fetched: Fetched, logistic: Logistic)
    requires fetched.models.Some? && fetched.problems.Some? && AllFetched(users, fetched.submissions)
    requires forall u :: u in users ==> |Filter(fetched.submissions[u], IsAc)| < 25
    ensures Digest(users, fetched, logistic) == Success([Text(Fallback)])
  {
    FewSolvedNoEmbeds(users, fetched, logistic);
  }

  function CorrectedAllEmbeds(users: seq<string>, fetched: map<string, seq<SubmissionItem>>, problems: seq<ProblemItem>,
                              models: map<string, ProblemModelItem>, logistic: Logistic): seq<Embed>
    requires AllFetched(users, fetched)
    decreases |users|
  {
    if users == [] then []
    else
      var last := users[|users| - 1];
      CorrectedAllEmbeds(users[..|users| - 1], fetched, problems, models, logistic)
        + CorrectedUserEmbeds(last, fetched[last], problems, models, logistic)
  }

  /** `process` with `chunks(25)` and details from the accepted submissions. */
  function CorrectedDigest(users: seq<string>, fetched: Fetched, logistic: Logistic): Result<seq<Message>, DigestError> {
    if fetched.models.None? || fetched.problems.None? || !AllFetched(users, fetched.submissions) then Failure(Upstream)
    else Success(OneMessage(CorrectedAllEmbeds(users, fetched.submissions, fetched.problems.value, fetched.models.value, logistic)))
  }

  lemma {:induction false} CorrectedAllEmbedsEmpty(users: seq<string>, fetched: Fetched, logistic: Logistic)
    requires fetched.models.Some? && fetched.problems.Some? && AllFetched(users, fetched.submissions)
    ensures CorrectedAllEmbeds(users, fetched.submissions, fetched.problems.value, fetched.models.value, logistic) == []
        <==> forall u :: u in users ==> Filter(fetched.submissions[u], IsAc) == []
    decreases |users|
  {
    if users != [] {
      var init, last := users[..|users| - 1], users[|users| - 1];
      assert users == init + [last];
      CorrectedAllEmbedsEmpty(init, fetched, logistic);
      CorrectedUserEmbedsCover(last, fetched.submissions[last], fetched.problems.value, fetched.models.value, logistic);
    }
  }

  /** Corrected, the fallback text is sent exactly when no user got an AC. */
  lemma CorrectedFallbackIff(users: seq<string>, fetched: Fetched, logistic: Logistic)
    requires fetched.models.Some? && fetched.problems.Some? && AllFetched(users, fetched.submissions)
    ensures CorrectedDigest(users, fetched, logistic) == Success([Text(Fallback)])
        <==> forall u :: u in users ==> Filter(fetched.submissions[u], IsAc) == []
  {
    CorrectedAllEmbedsEmpty(users, fetched, logistic);
  }

  /** `process`: the per-user loop that extends `embeds`, then one message. */
  method Process(users: seq<string>, fetched: Fetched, logistic: Logistic) returns (r: Result<seq<Message>, DigestError>)
    ensures r == Digest(users, fetched, logistic)
  {
    if fetched.models.None? || fetched.problems.None? {
      return Failure(Upstream);
    }
    var embeds: seq<Embed> := [];
    var i := 0;
    while i < |users|
      invariant 0 <= i <= |users|
      invariant AllFetched(users[..i], fetched.submissions)
      invariant embeds == AllEmbeds(users[..i], fetched.submissions, fetched.problems.value, fetched.models.value, logistic)
    {
      var user := users[i];
      if user !in fetched.submissions {
        return Failure(Upstream);
      }
      embeds := embeds + UserEmbeds(user, fetched.submissions[user], fetched.problems.value, fetched.models.value, logistic);
      assert users[..i + 1][..i] == users[..i];
      i := i + 1;
    }
    assert users[..i] == users;
    return Success(OneMessage(embeds));
  }

  // ---------------------------------------------------------------- daily_job

  /** `(now + 1 day).with_hour(0).with_minute(0).with_second(0)`: the next local midnight. */
  function DailyJobTarget(now: int, offset: int): (r: int)
    ensures r == DailyJob.NextMidnight(now, offset)
  {
    var r := WithSecond(WithMinute(WithHour(now + Day, offset, 0), offset, 0), offset, 0);
    ShiftDays(now, offset, 1);
    Decompose(r, offset);
    SameLocalTime(r, DailyJob.NextMidnight(now, offset), offset);
    r
  }

  /** `i64::try_into::<u64>()`. */
  function TryIntoU64(x: int): (r: Option<nat>)
    ensures r.Some? <==> 0 <= x < 0x1_0000_0000_0000_0000
    ensures r.Some? ==> r.value == x
  {
    if 0 <= x < 0x1_0000_0000_0000_0000 then Some(x) else None
  }

  /** The sleep `target - now` is positive and at most a day, so `unwrap` cannot fail. */
  lemma DailyJobSleep(now: int, offset: int)
    ensures var s := TryIntoU64(DailyJobTarget(now, offset) - now);
      s.Some? && 0 < s.value <= Day
  {
  }

  // ---------------------------------------------------------------- commands

  /** The shared state `Data`; `saveOk` and `replyOk` say whether the file write and the
      Discord reply succeed (each `?` returns early on failure). */
  class Data {
    var channel: Option<ChannelId>
    var users: set<string>
    var effects: seq<Effect<BasicConfig>>

    /** `Data::default()`. */
    constructor ()
      ensures channel == None && users == {} && effects == []
    {
      channel := None;
      users := {};
      effects := [];
    }

    /** `channel`: store the invoking channel, save, then reply. */
    method Channel(invoking: ChannelId, saveOk: bool, replyOk: bool) returns (r: Outcome<CommandError>)
      modifies this
      ensures channel == Some(invoking) && users == old(users)
      ensures effects == old(effects) + SaveThenReply(BasicConfig(channel, users), ChannelSet(invoking), saveOk, replyOk)
      ensures r == SaveThenReplyOutcome(saveOk, replyOk)
    {
      channel := Some(invoking);
      if !saveOk {
        return Fail(SaveFailed);
      }
      effects := effects + [Saved(BasicConfig(channel, users))];
      if !replyOk {
        return Fail(ReplyFailed);
      }
      effects := effects + [Replied(ChannelSet(invoking))];
      return Pass;
    }

    /** `register`: this version replies BEFORE it changes the set, so a failed reply leaves
      the set as it was; the save comes last. */
    method Register(input: string, saveOk: bool, replyOk: bool) returns (r: Outcome<CommandError>)
      modifies this
      ensures channel == old(channel)
      ensures users == if replyOk then UserNames.Register(old(users), input) else old(users)
      ensures effects == old(effects)
        + (if replyOk then [Replied(UsersRegistered(Pieces(input)))] + (if saveOk then [Saved(BasicConfig(channel, users))] else []) else [])
      ensures r == if !replyOk then Fail(ReplyFailed) else if !saveOk then Fail(SaveFailed) else Pass
    {
      var pieces := Pieces(input);
      if !replyOk {
        return Fail(ReplyFailed);
      }
      effects := effects + [Replied(UsersRegistered(pieces))];
      users := UserNames.Register(users, input);
      if !saveOk {
        return Fail(SaveFailed);
      }
      effects := effects + [Saved(BasicConfig(channel, users))];
      return Pass;
    }

    /** `unregister`: remove the exact name, save, then reply. */
    method Unregister(user: string, saveOk: bool, replyOk: bool) returns (r: Outcome<CommandError>)
      modifies this
      ensures channel == old(channel)
      ensures users == UserNames.Unregister(old(users), user)
      ensures effects == old(effects) + SaveThenReply(BasicConfig(channel, users), UserUnregistered(user), saveOk, replyOk)
      ensures r == SaveThenReplyOutcome(saveOk, replyOk)
    {
      users := UserNames.Unregister(users, user);
      if !saveOk {
        return Fail(SaveFailed);
      }
      effects := effects + [Saved(BasicConfig(channel, users))];
      if !replyOk {
        return Fail(ReplyFailed);
      }
      effects := effects + [Replied(UserUnregistered(user))];
      return Pass;
    }

    /** `registerlist`: reply with every user, sorted ascending; nothing is changed or saved. */
    method RegisterList(replyOk: bool) returns (r: Outcome<CommandError>, listed: seq<string>)
      modifies this
      ensures channel == old(channel) && users == old(users)
      ensures Ascending(listed) && |listed| == |users| && forall u :: u in listed <==> u in users
      ensures effects == old(effects) + if replyOk then [Replied(RegisteredList(listed))] else []
      ensures r == if replyOk then Pass else Fail(ReplyFailed)
    {
      listed := Sorted(users);
      if !replyOk {
        return Fail(ReplyFailed), listed;
      }
      effects := effects + [Replied(RegisteredList(listed))];
      return Pass, listed;
    }
  }
}
