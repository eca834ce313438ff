/** The earlier digest of src/notify.rs: every accepted submission the API returned for each
    user, classified with src/difficulty.rs, 25 fields per embed and all embeds in one
    message. */
module Notify {

  import opened Wrappers
  import opened Seqs
  import opened Text
  import opened Rating
  import opened AtCoderTypes
  import opened Embeds
  import Difficulty

  /** The judge verdicts `serde` accepts, spelled in upper case on the wire. */
  datatype JudgeStatus = Ce | Mle | Tle | Re | Ole | Ie | Wa | Ac | Wj | Wr

  /** `#[serde(rename_all = "UPPERCASE")]`: the wire tag of each verdict. */
  function Encode(j: JudgeStatus): string {
    match j
    case Ce => "CE"
    case Mle => "MLE"
    case Tle => "TLE"
    case Re => "RE"
    case Ole => "OLE"
    case Ie => "IE"
    case Wa => "WA"
    case Ac => "AC"
    case Wj => "WJ"
    case Wr => "WR"
  }

  /** Deserialising a tag: any other string (a lower-case one, "WR " with a space) fails. */
  function Decode(s: string): Option<JudgeStatus> {
    if s == "CE" then Some(Ce)
    else if s == "MLE" then Some(Mle)
    else if s == "TLE" then Some(Tle)
    else if s == "RE" then Some(Re)
    else if s == "OLE" then Some(Ole)
    else if s == "IE" then Some(Ie)
    else if s == "WA" then Some(Wa)
    else if s == "AC" then Some(Ac)
    else if s == "WJ" then Some(Wj)
    else if s == "WR" then Some(Wr)
    else None
  }

  /** Every verdict reads back as itself. */
  lemma DecodeEncode(j: JudgeStatus)
    ensures Decode(Encode(j)) == Some(j)
  {
  }

  /** Only the ten tags decode, each to the verdict that encodes to it. */
  lemma EncodeDecode(s: string)
    ensures Decode(s).Some? ==> Encode(Decode(s).value) == s
    ensures Decode(s).None? <==> forall j: JudgeStatus :: Encode(j) != s
  {
    if Decode(s).None? {
      forall j: JudgeStatus ensures Encode(j) != s {
        DecodeEncode(j);
      }
    }
  }

  /** A submission list deserialises only when every verdict in it does. */
  predicate Decodes(subs: seq<SubmissionItem>) {
    forall i :: 0 <= i < |subs| ==> Decode(subs[i].result).Some?
  }

  predicate IsAc(s: SubmissionItem) {
    Decode(s.result) == Some(Ac)
  }

  /** `.filter(|s| s.result == JudgeStatus::Ac)`: no time filter in this version. */
  function Accepted(subs: seq<SubmissionItem>): (r: seq<SubmissionItem>)
    ensures forall s :: s in r <==> s in subs && s.result == "AC"
  {
    Filter(subs, IsAc)
  }

  /** The verdict filter keeps input order and multiplicities. */
  lemma AcceptedInOrder(a: seq<SubmissionItem>, b: seq<SubmissionItem>, x: SubmissionItem)
    ensures Accepted(a + b) == Accepted(a) + Accepted(b)
    ensures multiset(Accepted(a))[x] == if x.result == "AC" then multiset(a)[x] else 0
  {
    FilterAppend(a, b, IsAc);
    FilterMultiplicity(a, IsAc, x);
  }

  /** The URL is built from the problem's contest, "" when the problem is unknown. */
  function DetailOf(s: SubmissionItem, problems: seq<ProblemItem>, models: map<string, ProblemModelItem>): ProblemDetail {
    var problem := ProblemOrDefault(problems, s.problemId);
    ProblemDetail(
      problem.title,
      ModelOrDefault(models, s.problemId).difficulty,
      s.language,
      "https://atcoder.jp/contests/" + problem.contestId + "/submissions/" + Decimal(s.id))
  }

  /** Unknown problem: empty title, and a URL with an empty contest segment. */
  lemma UnknownProblemDetail(s: SubmissionItem, problems: seq<ProblemItem>, models: map<string, ProblemModelItem>)
    requires forall i :: 0 <= i < |problems| ==> problems[i].id != s.problemId
    ensures var d := DetailOf(s, problems, models);
      d.title == "" && d.submissionUrl == "https://atcoder.jp/contests//submissions/" + Decimal(s.id)
      && d.language == s.language
  {
  }

  /** Known problem: the first listed problem with the id gives the title and the contest
      segment of the URL. */
  lemma KnownProblemDetail(s: SubmissionItem, problems: seq<ProblemItem>, models: map<string, ProblemModelItem>, i: nat)
    requires i < |problems| && problems[i].id == s.problemId
    requires forall j :: 0 <= j < i ==> problems[j].id != s.problemId
    ensures var d := DetailOf(s, problems, models);
      && d.title == problems[i].title
      && d.submissionUrl == "https://atcoder.jp/contests/" + problems[i].contestId + "/submissions/" + Decimal(s.id)
      && d.difficulty == ModelOrDefault(models, s.problemId).difficulty && d.language == s.language
  {
  }

  function Details(accepted: seq<SubmissionItem>, problems: seq<ProblemItem>, models: map<string, ProblemModelItem>): seq<ProblemDetail> {
    seq(|accepted|, i requires 0 <= i < |accepted| => DetailOf(accepted[i], problems, models))
  }

  function RatingText(difficulty: Option<I64>, logistic: Logistic): string {
    match difficulty
    case None => Unknown
    case Some(d) =>
      var n := Difficulty.Normalize(d, logistic);
      NatDigits(n) + ("(" + Difficulty.Glyph(Difficulty.ColorOf(n)) + ")")
  }

  /** `ProblemDetail::to_field`. */
  function ToField(d: ProblemDetail, logistic: Logistic): Field {
    Field(d.title, FieldBody(RatingText(d.difficulty, logistic), d.language, d.submissionUrl), false)
  }

  /** The field names the problem, is not inline, starts with a digit exactly when the
      difficulty is known, and then reads back as the normalised rating. */
  lemma FieldReportsRating(d: ProblemDetail, logistic: Logistic)
    ensures var f := ToField(d, logistic);
      && f.name == d.title && !f.inline
      && (d.difficulty.None? <==> !IsDigit(f.value[0]))
      && (d.difficulty.None? ==> Unknown <= f.value)
      && (d.difficulty.Some? ==>
            ParseDigits(LeadingDigits(f.value)) == Difficulty.Normalize(d.difficulty.value, logistic))
  {
    var rest := " | " + d.language + " | [提出](" + d.submissionUrl + ")";
    var v := ToField(d, logistic).value;
    if d.difficulty.None? {
      assert v == Unknown + rest;
    } else {
      var n := Difficulty.Normalize(d.difficulty.value, logistic);
      var g := "(" + Difficulty.Glyph(Difficulty.ColorOf(n)) + ")";
      NumeralThen(n, g, rest);
    }
  }

  function DetailColor(d: ProblemDetail, logistic: Logistic): Color {
    match d.difficulty
    case None => Black
    case Some(x) => Difficulty.ColorOf(Difficulty.Normalize(x, logistic))
  }

  /** `.max().unwrap()` over a page: attained, maximal, `Black` only when no difficulty is known. */
  function PageColor(page: seq<ProblemDetail>, logistic: Logistic): (c: Color)
    requires |page| > 0
    ensures exists i :: 0 <= i < |page| && c == DetailColor(page[i], logistic)
    ensures forall i :: 0 <= i < |page| ==> Rank(DetailColor(page[i], logistic)) <= Rank(c)
    ensures c == Black <==> forall i :: 0 <= i < |page| ==> page[i].difficulty.None?
  {
    var cs := seq(|page|, i requires 0 <= i < |page| => DetailColor(page[i], logistic));
    assert forall i :: 0 <= i < |page| ==> cs[i] == DetailColor(page[i], logistic);
    MaxOfBlack(cs);
    MaxOf(cs)
  }

  function PageFields(page: seq<ProblemDetail>, logistic: Logistic): seq<Field> {
    seq(|page|, i requires 0 <= i < |page| => ToField(page[i], logistic))
  }

  function ToEmbed(user: string, page: seq<ProblemDetail>, logistic: Logistic): Embed
    requires |page| > 0
  {
    Embed(
      Some(user + " さんが昨日ACした問題"),
      Some("https://atcoder.jp/users/" + user),
      PageFields(page, logistic),
      Difficulty.Rgb(PageColor(page, logistic)))
  }

  function PageEmbeds(user: string, pages: seq<seq<ProblemDetail>>, logistic: Logistic): seq<Embed>
    requires forall i :: 0 <= i < |pages| ==> |pages[i]| > 0
  {
    seq(|pages|, i requires 0 <= i < |pages| => ToEmbed(user, pages[i], logistic))
  }

  /** One user's embeds: `accept_details.chunks(25).map(...)`. */
  function UserEmbeds(user: string, subs: seq<SubmissionItem>, problems: seq<ProblemItem>,
                      models: map<string, ProblemModelItem>, logistic: Logistic): seq<Embed>
  {
    PageEmbeds(user, Chunks(Details(Accepted(subs), problems, models), 25), logistic)
  }

  lemma {:induction false} PageFieldsAppend(a: seq<ProblemDetail>, b: seq<ProblemDetail>, logistic: Logistic)
    ensures PageFields(a + b, logistic) == PageFields(a, logistic) + PageFields(b, logistic)
  {
    var f, g, h := PageFields(a + b, logistic), PageFields(a, logistic), PageFields(b, logistic);
    assert |f| == |g + h|;
    forall i | 0 <= i < |f| ensures f[i] == (g + h)[i] {
      if i < |a| {
        assert (a + b)[i] == a[i] && (g + h)[i] == g[i];
      } else {
        assert (a + b)[i] == b[i - |a|] && (g + h)[i] == h[i - |a|];
      }
    }
  }

  lemma {:induction false} FieldsOfPages(user: string, pages: seq<seq<ProblemDetail>>, logistic: Logistic)
    requires forall i :: 0 <= i < |pages| ==> |pages[i]| > 0
    ensures FieldsOf(PageEmbeds(user, pages, logistic)) == PageFields(Flatten(pages), logistic)
    decreases |pages|
  {
    if pages != [] {
      assert PageEmbeds(user, pages, logistic)[1..] == PageEmbeds(user, pages[1..], logistic);
      FieldsOfPages(user, pages[1..], logistic);
      PageFieldsAppend(pages[0], Flatten(pages[1..]), logistic);
    }
  }

  /** None exactly when nothing was accepted; 1 to 25 fields each; all of them together are
      one field per accepted submission, in order. */
  lemma UserEmbedsCover(user: string, subs: seq<SubmissionItem>, problems: seq<ProblemItem>,
                        models: map<string, ProblemModelItem>, logistic: Logistic)
    ensures var es := UserEmbeds(user, subs, problems, models, logistic);
      var acc := Accepted(subs);
      && (es == [] <==> acc == [])
      && (forall i :: 0 <= i < |es| ==> 0 < |es[i].fields| <= 25)
      && FieldsOf(es) == seq(|acc|, i requires 0 <= i < |acc| => ToField(DetailOf(acc[i], problems, models), logistic))
  {
    var details := Details(Accepted(subs), problems, models);
    FieldsOfPages(user, Chunks(details, 25), logistic);
  }

  /** Every user's submission list must deserialise. */
  predicate AllFetched(users: seq<string>, subs: map<string, seq<SubmissionItem>>) {
    forall u :: u in users ==> u in subs && Decodes(subs[u])
  }

  function AllEmbeds(users: seq<string>, subs: map<string, seq<SubmissionItem>>, problems: seq<ProblemItem>,
                     models: map<string, ProblemModelItem>, logistic: Logistic): seq<Embed>
    requires forall u :: u in users ==> u in subs
    decreases |users|
  {
    if users == [] then []
    else
      var last := users[|users| - 1];
      AllEmbeds(users[..|users| - 1], subs, problems, models, logistic)
        + UserEmbeds(last, subs[last], problems, models, logistic)
  }

  function Digest(channel: Option<ChannelId>, users: seq<string>, fetched: Fetched, logistic: Logistic): Result<seq<Message>, DigestError> {
    if channel.None? then Failure(ChannelNotSet)
    else if fetched.models.None? || fetched.problems.None? || !AllFetched(users, fetched.submissions) then Failure(Upstream)
    else Success(OneMessage(AllEmbeds(users, fetched.submissions, fetched.problems.value, fetched.models.value, logistic)))
  }

  /** Once everything is fetched and decoded, the fallback text is the only message exactly
      when nobody has an accepted submission. */
  lemma NobodyAccepted(channel: ChannelId, users: seq<string>, fetched: Fetched, logistic: Logistic)
    requires fetched.models.Some? && fetched.problems.Some? && AllFetched(users, fetched.submissions)
    ensures Digest(Some(channel), users, fetched, logistic) == Success([Text(Fallback)])
      <==> forall u :: u in users ==> Accepted(fetched.submissions[u]) == []
  {
    NoEmbeds(users, fetched, logistic);
  }

  lemma {:induction false} NoEmbeds(users: seq<string>, fetched: Fetched, logistic: Logistic)
    requires fetched.models.Some? && fetched.problems.Some? && AllFetched(users, fetched.submissions)
    ensures AllEmbeds(users, fetched.submissions, fetched.problems.value, fetched.models.value, logistic) == []
      <==> forall u :: u in users ==> Accepted(fetched.submissions[u]) == []
    decreases |users|
  {
    if users != [] {
      var init, last := users[..|users| - 1], users[|users| - 1];
      assert users == init + [last];
      NoEmbeds(init, fetched, logistic);
      UserEmbedsCover(last, fetched.submissions[last], fetched.problems.value, fetched.models.value, logistic);
    }
  }

  /** One more user, fetched and decoded, extends the digest by that user's embeds. */
  lemma AllEmbedsStep(users: seq<string>, i: nat, subs: map<string, seq<SubmissionItem>>, problems: seq<ProblemItem>,
                      models: map<string, ProblemModelItem>, logistic: Logistic)
    requires i < |users| && AllFetched(users[..i], subs)
    requires users[i] in subs && Decodes(subs[users[i]])
    ensures AllFetched(users[..i + 1], subs)
    ensures AllEmbeds(users[..i + 1], subs, problems, models, logistic)
      == AllEmbeds(users[..i], subs, problems, models, logistic) + UserEmbeds(users[i], subs[users[i]], problems, models, logistic)
  {
    assert users[..i + 1] == users[..i] + [users[i]];
    assert users[..i + 1][..i] == users[..i];
  }

  /** `notify`: the per-user loop (any failed fetch or undecodable verdict aborts before
      anything is sent), then one message. */
  method RunNotify(channel: Option<ChannelId>, users: seq<string>, fetched: Fetched, logistic: Logistic)
    returns (r: Result<seq<Message>, DigestError>)
    ensures r == Digest(channel, users, fetched, logistic)
  {
    if channel.None? {
      return Failure(ChannelNotSet);
    }
    if fetched.models.None? || fetched.problems.None? {
      return Failure(Upstream);
    }
    var subs, problems, models := fetched.submissions, fetched.problems.value, fetched.models.value;
    var embeds: seq<Embed> := [];
    var i := 0;
    while i < |users|
      invariant 0 <= i <= |users|
      invariant AllFetched(users[..i], subs)
      invariant embeds == AllEmbeds(users[..i], subs, problems, models, logistic)
    {
      var user := users[i];
      if user !in subs || !Decodes(subs[user]) {
        assert !AllFetched(users, subs);
        return Failure(Upstream);
      }
      AllEmbedsStep(users, i, subs, problems, models, logistic);
      embeds := embeds + UserEmbeds(user, subs[user], problems, models, logistic);
      i := i + 1;
    }
    assert users[..i] == users;
    return Success(OneMessage(embeds));
  }
}
