/** The records decoded from the AtCoder Problems API (src/api_parsing/types.rs), without
    their floating-point fields, and the two lookups every pipeline version performs. */
module AtCoderTypes {

  import opened Wrappers
  import opened Rating

  /** One entry of problem-models.json; only the estimated difficulty is kept. */
  datatype ProblemModelItem = ProblemModelItem(difficulty: Option<I64>)

  /** One entry of problems.json. */
  datatype ProblemItem = ProblemItem(id: string, contestId: string, problemIndex: string, name: string, title: string)

  /** One submission of a user. */
  datatype SubmissionItem = SubmissionItem(
    id: int, epochSecond: int, problemId: string, contestId: string, userId: string,
    language: string, length: int, result: string, executionTime: Option<int>)

  /** One upcoming contest; `startTime` in epoch seconds (UTC). */
  datatype ContestItem = ContestItem(startTime: int, name: string, duration: nat, ratedRange: string, url: string)

  /** What a digest's HTTP fetches returned: `None`, or a user missing from `submissions`,
      stands for a failed request or an undecodable body. */
  datatype Fetched = Fetched(
    models: Option<map<string, ProblemModelItem>>,
    problems: Option<seq<ProblemItem>>,
    submissions: map<string, seq<SubmissionItem>>)

  /** `#[derive(Default)]` values used when a lookup misses. */
  const DefaultModel := ProblemModelItem(None)
  const DefaultProblem := ProblemItem("", "", "", "", "")

  /** `problems.iter().find(|p| p.id == id)`: the first problem with that id, if any. */
  function FindProblem(problems: seq<ProblemItem>, id: string): (r: Option<ProblemItem>)
    ensures r.None? <==> forall i :: 0 <= i < |problems| ==> problems[i].id != id
    ensures r.Some? ==> exists i :: 0 <= i < |problems| && problems[i] == r.value && r.value.id == id
                          && forall j :: 0 <= j < i ==> problems[j].id != id
    decreases |problems|
  {
    if problems == [] then None
    else if problems[0].id == id then Some(problems[0])
    else FindProblem(problems[1..], id)
  }

  /** `....cloned().unwrap_or_default()` on the problem lookup. */
  function ProblemOrDefault(problems: seq<ProblemItem>, id: string): (p: ProblemItem)
    ensures (forall i :: 0 <= i < |problems| ==> problems[i].id != id) ==> p == DefaultProblem
    ensures (exists i :: 0 <= i < |problems| && problems[i].id == id) ==> p in problems && p.id == id
    ensures forall i :: 0 <= i < |problems| && problems[i].id == id && (forall j :: 0 <= j < i ==> problems[j].id != id)
              ==> p == problems[i]
  {
    FindProblem(problems, id).GetOr(DefaultProblem)
  }

  /** `problem_models.get(id).cloned().unwrap_or_default()`. */
  function ModelOrDefault(models: map<string, ProblemModelItem>, id: string): (m: ProblemModelItem)
    ensures id !in models ==> m.difficulty == None
    ensures id in models ==> m == models[id]
  {
    if id in models then models[id] else DefaultModel
  }

  /** `WellKnownContest`: the contest series a channel can follow. */
  datatype ContestKind = Abc | Arc | Agc | Ahc

  /** The phrase a contest's name must contain to be of that kind. */
  function Phrase(k: ContestKind): string {
    match k
    case Abc => "AtCoder Beginner Contest"
    case Arc => "AtCoder Regular Contest"
    case Agc => "AtCoder Grand Contest"
    case Ahc => "AtCoder Heuristic Contest"
  }
}
