/** The daily digest of src/functions/periodic/list_submission.rs: yesterday's accepted
    submissions of every registered user, one embed field each, 25 fields per embed, and
    the embeds sent 10 per message. */
module ListSubmission {

  import opened Wrappers
  import opened Seqs
  import opened Text
  import opened Rating
  import opened AtCoderTypes
  import opened Embeds
  import opened Clock
  import ApiDifficulty

  const MaxFields: nat := 25
  const MaxEmbedsPerMessage: nat := 10

  // ---------------------------------------------------------------- the reporting window

  /** `from` and `to`: yesterday's and today's local midnight. `from` is only passed to the
      API as `from_second`; the code itself filters on `to`. */
  function Window(now: int, offset: int): (w: (int, int))
    ensures w.1 - w.0 == Day
    ensures w.1 <= now < w.1 + Day
    ensures SecondOfDay(w.0, offset) == 0 && SecondOfDay(w.1, offset) == 0
    ensures DayNumber(w.1, offset) == DayNumber(now, offset)
  {
    var from := WithTime(now - Day, offset, 0);
    var to := WithTime(now, offset, 0);
    Decompose(now, offset);
    Decompose(to, offset);
    ShiftDays(now, offset, -1);
    Decompose(from, offset);
    (from, to)
  }

  // ---------------------------------------------------------------- filter

  function Before(to: int): SubmissionItem -> bool {
    (s: SubmissionItem) => s.epochSecond < to
  }

  predicate IsAc(s: SubmissionItem) {
    s.result == "AC"
  }

  /** `.filter(|s| s.epoch_second < to).filter(|s| s.result == "AC")`. */
  function Accepted(subs: seq<SubmissionItem>, to: int): (r: seq<SubmissionItem>)
    ensures forall s :: s in r <==> s in subs && s.epochSecond < to && s.result == "AC"
  {
    Filter(Filter(subs, Before(to)), IsAc)
  }

  /** The retained submissions keep their input order, and each keeps its multiplicity. */
  lemma AcceptedInOrder(a: seq<SubmissionItem>, b: seq<SubmissionItem>, to: int, x: SubmissionItem)
    ensures Accepted(a + b, to) == Accepted(a, to) + Accepted(b, to)
    ensures multiset(Accepted(a, to))[x] == if x.epochSecond < to && x.result == "AC" then multiset(a)[x] else 0
  {
    FilterAppend(a, b, Before(to));
    FilterAppend(Filter(a, Before(to)), Filter(b, Before(to)), IsAc);
    FilterMultiplicity(a, Before(to), x);
    FilterMultiplicity(Filter(a, Before(to)), IsAc, x);
  }

  // ---------------------------------------------------------------- detail

  const ContestsBase := "https://atcoder.jp/contests/"

  /** `"https://atcoder.jp/contests/{contest_id}/submissions/{id}"`. */
  function SubmissionUrl(contestId: string, id: int): string {
    ContestsBase + contestId + "/submissions/" + Decimal(id)
  }

  /** The detail built for one retained submission. */
  function DetailOf(s: SubmissionItem, problems: seq<ProblemItem>, models: map<string, ProblemModelItem>): ProblemDetail {
    ProblemDetail(
      ProblemOrDefault(problems, s.problemId).title,
      ModelOrDefault(models, s.problemId).difficulty,
      s.language,
      SubmissionUrl(s.contestId, s.id))
  }

  /** The detail joins the submission with its problem and model, with defaults when either is missing. */
  lemma DetailJoin(s: SubmissionItem, problems: seq<ProblemItem>, models: map<string, ProblemModelItem>)
    ensures var d := DetailOf(s, problems, models);
      && d.language == s.language
      && d.submissionUrl == SubmissionUrl(s.contestId, s.id)
      && (s.problemId !in models ==> d.difficulty == None)
      && (s.problemId in models ==> d.difficulty == models[s.problemId].difficulty)
      && ((forall i :: 0 <= i < |problems| ==> problems[i].id != s.problemId) ==> d.title == "")
      && (forall i :: (0 <= i < |problems| && problems[i].id == s.problemId
            && (forall j :: 0 <= j < i ==> problems[j].id != s.problemId)) ==> d.title == problems[i].title)
  {
  }

  lemma PrefixCancel(p: string, a: string, b: string)
    requires p + a == p + b
    ensures a == b
  {
    assert a == (p + a)[|p|..];
  }

  lemma UrlShape(c: string, id: int)
    ensures SubmissionUrl(c, id) == ContestsBase + (c + "/" + ("submissions/" + Decimal(id)))
  {
    assert "/submissions/" == "/" + "submissions/";
  }

  /** The submission URL names the submission's own contest and id: different submissions
      get different URLs (contest ids never contain '/'). */
  lemma SubmissionUrlInjective(c1: string, i1: int, c2: string, i2: int)
    requires '/' !in c1 && '/' !in c2
    requires SubmissionUrl(c1, i1) == SubmissionUrl(c2, i2)
    ensures c1 == c2 && i1 == i2
  {
    UrlShape(c1, i1);
    UrlShape(c2, i2);
    PrefixCancel(ContestsBase, c1 + "/" + ("submissions/" + Decimal(i1)), c2 + "/" + ("submissions/" + Decimal(i2)));
    SlashSplit(c1, "submissions/" + Decimal(i1), c2, "submissions/" + Decimal(i2));
    PrefixCancel("submissions/", Decimal(i1), Decimal(i2));
    DecimalInjective(i1, i2);
  }

  /** `a + "/" + x == b + "/" + y` with no '/' in `a` or `b` splits at the same place. */
  lemma SlashSplit(a: string, x: string, b: string, y: string)
    requires '/' !in a && '/' !in b
    requires a + "/" + x == b + "/" + y
    ensures a == b && x == y
  {
    var s := a + "/" + x;
    assert forall k :: 0 <= k < |a| ==> s[k] == a[k];
    assert forall k :: 0 <= k < |b| ==> s[k] == (b + "/" + y)[k] == b[k];
    assert s[|a|] == '/' && (b + "/" + y)[|b|] == '/';
    assert |a| == |b|;
    assert a == s[..|a|] == b;
    assert x == s[|a| + 1..] == y;
  }

  /** `.map(...)` over the retained submissions: one detail each, in order, none merged. */
  function Details(accepted: seq<SubmissionItem>, problems: seq<ProblemItem>, models: map<string, ProblemModelItem>): (r: seq<ProblemDetail>)
  {
    seq(|accepted|, i requires 0 <= i < |accepted| => DetailOf(accepted[i], problems, models))
  }

  // ---------------------------------------------------------------- field

  function RatingText(difficulty: Option<I64>, logistic: Logistic): string {
    match difficulty
    case None => Unknown
    case Some(d) =>
      var n := ApiDifficulty.Normalize(d, logistic);
      NatDigits(n) + ("(" + ApiDifficulty.Glyph(ApiDifficulty.FromRating(n)) + ")")
  }

  /** `ProblemDetail::to_field`. */
  function ToField(d: ProblemDetail, logistic: Logistic): Field {
    Field(d.title, FieldBody(RatingText(d.difficulty, logistic), d.language, d.submissionUrl), false)
  }

  /** An unknown difficulty: the field is named by the title, is not inline, and its value
      starts with "不明", not with a digit. */
  lemma FieldOfUnknown(d: ProblemDetail, logistic: Logistic)
    requires d.difficulty.None?
    ensures var f := ToField(d, logistic);
      f.name == d.title && !f.inline && Unknown <= f.value && !IsDigit(f.value[0])
  {
  }

  /** A known difficulty: the value starts with the normalised rating, which its leading
      digits read back, followed by `(glyph)` of the rating's colour. */
  lemma FieldOfKnown(d: ProblemDetail, logistic: Logistic)
    requires d.difficulty.Some?
    ensures var f := ToField(d, logistic);
      var n := ApiDifficulty.Normalize(d.difficulty.value, logistic);
      var digits := LeadingDigits(f.value);
      && f.name == d.title && !f.inline && IsDigit(f.value[0])
      && ParseDigits(digits) == n
      && "(" + ApiDifficulty.Glyph(ApiDifficulty.FromRating(n)) + ")" <= f.value[|digits|..]
  {
    var n := ApiDifficulty.Normalize(d.difficulty.value, logistic);
    var g := "(" + ApiDifficulty.Glyph(ApiDifficulty.FromRating(n)) + ")";
    var rest := " | " + d.language + " | [提出](" + d.submissionUrl + ")";
    NumeralThen(n, g, rest);
  }

  // ---------------------------------------------------------------- embed

  /** The colour of one detail: its rating's colour, `Black` when unknown. */
  function DetailColor(d: ProblemDetail, logistic: Logistic): Color {
    match d.difficulty
    case None => Black
    case Some(x) => ApiDifficulty.FromRating(ApiDifficulty.Normalize(x, logistic))
  }

  /** The accent: the largest colour in the page (pages are never empty, so `max()` is `Some`). */
  function PageColor(page: seq<ProblemDetail>, logistic: Logistic): (c: Color)
    requires |page| > 0
    ensures exists i :: 0 <= i < |page| && c == DetailColor(page[i], logistic)
    ensures forall i :: 0 <= i < |page| ==> Rank(DetailColor(page[i], logistic)) <= Rank(c)
    ensures c == Black <==> forall i :: 0 <= i < |page| ==> page[i].difficulty.None?
  {
    var cs := seq(|page|, i requires 0 <= i < |page| => DetailColor(page[i], logistic));
    assert forall i :: 0 <= i < |page| ==> cs[i] == DetailColor(page[i], logistic);
    MaxOfBlack(cs);
    MaxOf(cs)
  }

  function PageFields(page: seq<ProblemDetail>, logistic: Logistic): seq<Field> {
    seq(|page|, i requires 0 <= i < |page| => ToField(page[i], logistic))
  }

  /** The embed for one page of a user's details. */
  function ToEmbed(user: string, page: seq<ProblemDetail>, logistic: Logistic): Embed
    requires |page| > 0
  {
    Embed(
      Some(user + " さんが昨日ACした問題"),
      Some("https://atcoder.jp/users/" + user),
      PageFields(page, logistic),
      ApiDifficulty.Rgb(PageColor(page, logistic)))
  }

  function PageEmbeds(user: string, pages: seq<seq<ProblemDetail>>, logistic: Logistic): seq<Embed>
    requires forall i :: 0 <= i < |pages| ==> |pages[i]| > 0
  {
    seq(|pages|, i requires 0 <= i < |pages| => ToEmbed(user, pages[i], logistic))
  }

  /** The embeds of one user: `accept_details.chunks(25).map(...)`. */
  function UserEmbeds(user: string, subs: seq<SubmissionItem>, problems: seq<ProblemItem>,
                      models: map<string, ProblemModelItem>, to: int, logistic: Logistic): seq<Embed>
  {
    PageEmbeds(user, Chunks(Details(Accepted(subs, to), problems, models), MaxFields), logistic)
  }

  lemma {:induction false} PageFieldsAppend(a: seq<ProblemDetail>, b: seq<ProblemDetail>, logistic: Logistic)
    ensures PageFields(a + b, logistic) == PageFields(a, logistic) + PageFields(b, logistic)
  {
    var f, g, h := PageFields(a + b, logistic), PageFields(a, logistic), PageFields(b, logistic);
    assert |f| == |g + h|;
    forall i | 0 <= i < |f| ensures f[i] == (g + h)[i] {
      if i < |a| {
        assert (a + b)[i] == a[i] && (g + h)[i] == g[i];
      } else {
        assert (a + b)[i] == b[i - |a|] && (g + h)[i] == h[i - |a|];
      }
    }
  }

  lemma {:induction false} FieldsOfPages(user: string, pages: seq<seq<ProblemDetail>>, logistic: Logistic)
    requires forall i :: 0 <= i < |pages| ==> |pages[i]| > 0
    ensures FieldsOf(PageEmbeds(user, pages, logistic)) == PageFields(Flatten(pages), logistic)
    decreases |pages|
  {
    if pages != [] {
      var es := PageEmbeds(user, pages, logistic);
      assert es[1..] == PageEmbeds(user, pages[1..], logistic);
      FieldsOfPages(user, pages[1..], logistic);
      PageFieldsAppend(pages[0], Flatten(pages[1..]), logistic);
    }
  }

  /** A user's embeds: none exactly when nothing was accepted; each titled for the user with
      1 to 25 fields; and their fields, concatenated, are one field per accepted submission
      in submission order. */
  lemma UserEmbedsCover(user: string, subs: seq<SubmissionItem>, problems: seq<ProblemItem>,
                        models: map<string, ProblemModelItem>, to: int, logistic: Logistic)
    ensures var es := UserEmbeds(user, subs, problems, models, to, logistic);
      var acc := Accepted(subs, to);
      && (es == [] <==> acc == [])
      && (forall i :: 0 <= i < |es| ==>
            0 < |es[i].fields| <= MaxFields && es[i].title == Some(user + " さんが昨日ACした問題"))
      && FieldsOf(es) == seq(|acc|, i requires 0 <= i < |acc| => ToField(DetailOf(acc[i], problems, models), logistic))
  {
    var acc := Accepted(subs, to);
    var details := Details(acc, problems, models);
    var pages := Chunks(details, MaxFields);
    FieldsOfPages(user, pages, logistic);
    assert |details| == |acc|;
  }

  /** The accent of every embed is the colour of its most difficult problem. */
  lemma EmbedAccent(user: string, page: seq<ProblemDetail>, logistic: Logistic)
    requires |page| > 0
    ensures var c := ToEmbed(user, page, logistic).color;
      && (exists i :: 0 <= i < |page| && c == ApiDifficulty.Rgb(DetailColor(page[i], logistic)))
      && (c == 0 <==> forall i :: 0 <= i < |page| ==> page[i].difficulty.None?)
  {
    ApiDifficulty.RgbInjective(PageColor(page, logistic), Black);
  }

  // ---------------------------------------------------------------- all users and delivery

  /** `embeds.extend(...)` over the users in iteration order. */
  function AllEmbeds(users: seq<string>, subs: map<string, seq<SubmissionItem>>, problems: seq<ProblemItem>,
                     models: map<string, ProblemModelItem>, to: int, logistic: Logistic): seq<Embed>
    requires forall u :: u in users ==> u in subs
    decreases |users|
  {
    if users == [] then []
    else
      var last := users[|users| - 1];
      AllEmbeds(users[..|users| - 1], subs, problems, models, to, logistic)
        + UserEmbeds(last, subs[last], problems, models, to, logistic)
  }

  function AsMessage(es: seq<Embed>): Message {
    Embeds(es)
  }

  function ChunkMessages(chunks: seq<seq<Embed>>): seq<Message> {
    seq(|chunks|, i requires 0 <= i < |chunks| => AsMessage(chunks[i]))
  }

  lemma {:induction false} EmbedsOfChunkMessages(chunks: seq<seq<Embed>>)
    ensures EmbedsOf(ChunkMessages(chunks)) == Flatten(chunks)
    decreases |chunks|
  {
    if chunks != [] {
      assert ChunkMessages(chunks)[1..] == ChunkMessages(chunks[1..]);
      EmbedsOfChunkMessages(chunks[1..]);
    }
  }

  /** The messages sent: the fallback text when there is no embed, else `embeds.chunks(10)`,
      each chunk as one message. */
  function Batches(embeds: seq<Embed>): (msgs: seq<Message>)
    ensures embeds == [] ==> msgs == [Text(Fallback)]
    ensures embeds != [] ==> forall i :: 0 <= i < |msgs| ==> msgs[i].Embeds? && 0 < |msgs[i].embeds| <= MaxEmbedsPerMessage
    ensures EmbedsOf(msgs) == embeds
  {
    if embeds == [] then [Text(Fallback)]
    else
      var chunks := Chunks(embeds, MaxEmbedsPerMessage);
      EmbedsOfChunkMessages(chunks);
      ChunkMessages(chunks)
  }

  /** The send loop `for embeds in embeds.chunks(10) { send_message(...) }`. */
  method Deliver(embeds: seq<Embed>) returns (msgs: seq<Message>)
    ensures msgs == Batches(embeds)
  {
    if embeds == [] {
      return [Text(Fallback)];
    }
    var chunks := Chunks(embeds, MaxEmbedsPerMessage);
    msgs := [];
    for i := 0 to |chunks|
      invariant |msgs| == i
      invariant forall j :: 0 <= j < i ==> msgs[j] == AsMessage(chunks[j])
    {
      msgs := msgs + [AsMessage(chunks[i])];
    }
  }

  /** What `list_submission` sends, or why it fails. */
  function Digest(channel: Option<ChannelId>, users: seq<string>, fetched: Fetched, now: int, offset: int,
                  logistic: Logistic): Result<seq<Message>, DigestError>
  {
    if channel.None? then Failure(ChannelNotSet)
    else if fetched.models.None? || fetched.problems.None? then Failure(Upstream)
    else if exists u :: u in users && u !in fetched.submissions then Failure(Upstream)
    else
      var to := Window(now, offset).1;
      Success(Batches(AllEmbeds(users, fetched.submissions, fetched.problems.value, fetched.models.value, to, logistic)))
  }

  /** No embed at all exactly when no user has an accepted submission in the window. */
  lemma {:induction false} NoEmbedsIff(users: seq<string>, subs: map<string, seq<SubmissionItem>>, problems: seq<ProblemItem>,
                                       models: map<string, ProblemModelItem>, to: int, logistic: Logistic)
    requires forall u :: u in users ==> u in subs
    ensures AllEmbeds(users, subs, problems, models, to, logistic) == []
      <==> forall u :: u in users ==> Accepted(subs[u], to) == []
    decreases |users|
  {
    if users != [] {
      var init, last := users[..|users| - 1], users[|users| - 1];
      assert users == init + [last];
      NoEmbedsIff(init, subs, problems, models, to, logistic);
      UserEmbedsCover(last, subs[last], problems, models, to, logistic);
    }
  }

  /** Once everything is fetched, the fallback text is the whole digest exactly when nobody
      has an accepted submission in yesterday's window. */
  lemma FallbackIffNobodyAccepted(channel: ChannelId, users: seq<string>, fetched: Fetched, now: int, offset: int,
                                  logistic: Logistic)
    requires fetched.models.Some? && fetched.problems.Some?
    requires forall u :: u in users ==> u in fetched.submissions
    ensures Digest(Some(channel), users, fetched, now, offset, logistic) == Success([Text(Fallback)])
      <==> forall u :: u in users ==> Accepted(fetched.submissions[u], Window(now, offset).1) == []
  {
    var to := Window(now, offset).1;
    var embeds := AllEmbeds(users, fetched.submissions, fetched.problems.value, fetched.models.value, to, logistic);
    NoEmbedsIff(users, fetched.submissions, fetched.problems.value, fetched.models.value, to, logistic);
    assert EmbedsOf([Text(Fallback)]) == [];
  }

  /** One more user whose list was fetched extends the digest by that user's embeds. */
  lemma AllEmbedsStep(users: seq<string>, i: nat, subs: map<string, seq<SubmissionItem>>, problems: seq<ProblemItem>,
                      models: map<string, ProblemModelItem>, to: int, logistic: Logistic)
    requires i < |users| && users[i] in subs
    requires forall u :: u in users[..i] ==> u in subs
    ensures forall u :: u in users[..i + 1] ==> u in subs
    ensures AllEmbeds(users[..i + 1], subs, problems, models, to, logistic)
      == AllEmbeds(users[..i], subs, problems, models, to, logistic) + UserEmbeds(users[i], subs[users[i]], problems, models, to, logistic)
  {
    assert users[..i + 1] == users[..i] + [users[i]];
    assert users[..i + 1][..i] == users[..i];
  }

  /** `list_submission`: the per-user loop that grows `embeds`, then the delivery. */
  method ListSubmission(channel: Option<ChannelId>, users: seq<string>, fetched: Fetched, now: int, offset: int,
                        logistic: Logistic) returns (r: Result<seq<Message>, DigestError>)
    ensures r == Digest(channel, users, fetched, now, offset, logistic)
  {
    if channel.None? {
      return Failure(ChannelNotSet);
    }
    if fetched.models.None? || fetched.problems.None? {
      return Failure(Upstream);
    }
    var subs, models, problems := fetched.submissions, fetched.models.value, fetched.problems.value;
    var to := Window(now, offset).1;
    var embeds: seq<Embed> := [];
    var i := 0;
    while i < |users|
      invariant 0 <= i <= |users|
      invariant forall u :: u in users[..i] ==> u in subs
      invariant embeds == AllEmbeds(users[..i], subs, problems, models, to, logistic)
    {
      var user := users[i];
      if user !in subs {
        return Failure(Upstream);
      }
      AllEmbedsStep(users, i, subs, problems, models, to, logistic);
      embeds := embeds + UserEmbeds(user, subs[user], problems, models, to, logistic);
      i := i + 1;
    }
    assert users[..i] == users;
    var msgs := Deliver(embeds);
    return Success(msgs);
  }
}
