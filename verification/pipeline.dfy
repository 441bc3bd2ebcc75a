/**
 * `fact_checker_agent/agent.py`: the four-stage pipeline as constant data.
 * Each agent reads some state keys through its instruction template and
 * writes its answer under its `output_key`; a parallel stage runs its
 * branches on the same incoming state and merges their writes. What the
 * agents answer is a parameter (`produce`), so only the dataflow is modelled.
 */
module Pipeline {
  import opened Options

  datatype LanguageModel = Flash | Pro

  function ModelName(m: LanguageModel): string {
    match m
    case Flash => "gemini-2.0-flash"
    case Pro => "gemini-2.5-pro"
  }

  /** The tool functions an agent may call. */
  datatype Tool = SearchTheWebAndYoutube | SummarizeWebPages | SummarizeYoutubeVideosInBulk

  /** Whether an agent's answer must match the verdict schema. */
  datatype OutputSchema = FreeText | FactCheckResultSchema

  /** An LLM agent: its name, model, the state keys its instruction reads,
      its tools, its output schema and the key it writes. */
  datatype Agent = Agent(
    name: string,
    model: LanguageModel,
    readKeys: seq<string>,
    tools: seq<Tool>,
    schema: OutputSchema,
    outputKey: string)

  /** A step of the sequential pipeline. */
  datatype Stage = Single(agent: Agent) | Parallel(name: string, branches: seq<Agent>)

  const QueryProcessor: Agent := Agent("QueryProcessorAgent", Flash, [], [], FreeText, "search_query")
  const InfoGatherer: Agent :=
    Agent("InfoGathererAgent", Flash, ["search_query"], [SearchTheWebAndYoutube], FreeText, "gathered_urls")
  const WebSummarizer: Agent :=
    Agent("WebSummarizerAgent", Flash, ["gathered_urls"], [SummarizeWebPages], FreeText, "web_analysis")
  const VideoSummarizer: Agent :=
    Agent("VideoSummarizerAgent", Flash, ["gathered_urls"], [SummarizeYoutubeVideosInBulk], FreeText, "video_analysis")
  const FactRanker: Agent :=
    Agent("FactRankerAgent", Pro, ["search_query", "video_analysis"], [], FactCheckResultSchema, "final_fact_check_result")

  /** `root_agent`. */
  const Stages: seq<Stage> := [
    Single(QueryProcessor),
    Single(InfoGatherer),
    Parallel("ParallelSummarizer", [WebSummarizer, VideoSummarizer]),
    Single(FactRanker)
  ]

  function StageName(s: Stage): string {
    match s
    case Single(a) => a.name
    case Parallel(n, _) => n
  }

  function AgentsOf(s: Stage): seq<Agent> {
    match s
    case Single(a) => [a]
    case Parallel(_, bs) => bs
  }

  /** The keys some agents write, in order. */
  function KeysOf(agents: seq<Agent>): (r: seq<string>)
    ensures |r| == |agents|
    decreases |agents|
  {
    if |agents| == 0 then [] else [agents[0].outputKey] + KeysOf(agents[1..])
  }

  /** The keys some stages write, in order. */
  function OutputKeys(stages: seq<Stage>): seq<string>
    decreases |stages|
  {
    if |stages| == 0 then [] else KeysOf(AgentsOf(stages[0])) + OutputKeys(stages[1..])
  }

  /** The keys the first stages write. */
  lemma OutputKeysOfPrefixes()
    ensures OutputKeys(Stages[..0]) == []
    ensures OutputKeys(Stages[..1]) == ["search_query"]
    ensures OutputKeys(Stages[..2]) == ["search_query", "gathered_urls"]
    ensures OutputKeys(Stages[..3]) == ["search_query", "gathered_urls", "web_analysis", "video_analysis"]
    ensures OutputKeys(Stages[..4]) ==
              ["search_query", "gathered_urls", "web_analysis", "video_analysis", "final_fact_check_result"]
  {
    var web := KeysOf([WebSummarizer, VideoSummarizer]);
    assert web == ["web_analysis", "video_analysis"] by {
      assert [WebSummarizer, VideoSummarizer][1..] == [VideoSummarizer];
      assert KeysOf([VideoSummarizer]) == ["video_analysis"] by { assert [VideoSummarizer][1..] == []; }
    }
    assert KeysOf([QueryProcessor]) == ["search_query"] by { assert [QueryProcessor][1..] == []; }
    assert KeysOf([InfoGatherer]) == ["gathered_urls"] by { assert [InfoGatherer][1..] == []; }
    assert KeysOf([FactRanker]) == ["final_fact_check_result"] by { assert [FactRanker][1..] == []; }
    var k4 := OutputKeys([Stages[3]]);
    assert k4 == ["final_fact_check_result"] by {
      assert [Stages[3]][1..] == [];
      assert AgentsOf(Stages[3]) == [FactRanker];
      assert k4 == KeysOf([FactRanker]) + OutputKeys([]);
    }
    var k3 := OutputKeys([Stages[2], Stages[3]]);
    assert k3 == web + k4 by { assert [Stages[2], Stages[3]][1..] == [Stages[3]]; }
    var k3' := OutputKeys([Stages[2]]);
    assert k3' == web by { assert [Stages[2]][1..] == []; }
    var k2 := OutputKeys([Stages[1], Stages[2]]);
    assert k2 == ["gathered_urls"] + k3' by { assert [Stages[1], Stages[2]][1..] == [Stages[2]]; }
    var k2' := OutputKeys([Stages[1], Stages[2], Stages[3]]);
    assert k2' == ["gathered_urls"] + k3 by { assert [Stages[1], Stages[2], Stages[3]][1..] == [Stages[2], Stages[3]]; }
    assert Stages[..3][1..] == [Stages[1], Stages[2]];
    assert Stages[..4] == Stages;
    assert Stages[1..] == [Stages[1], Stages[2], Stages[3]];
    assert Stages[..2][1..] == [Stages[1]];
    assert OutputKeys([Stages[1]]) == ["gathered_urls"] by { assert [Stages[1]][1..] == []; }
    assert Stages[..1][1..] == [];
  }

  /** The stages in order, and the five keys in the order they are written. */
  lemma StageOrderAndKeys()
    ensures |Stages| == 4
    ensures StageName(Stages[0]) == "QueryProcessorAgent" && StageName(Stages[1]) == "InfoGathererAgent"
    ensures StageName(Stages[2]) == "ParallelSummarizer" && StageName(Stages[3]) == "FactRankerAgent"
    ensures OutputKeys(Stages) == ["search_query", "gathered_urls", "web_analysis", "video_analysis", "final_fact_check_result"]
  {
    OutputKeysOfPrefixes();
    assert Stages[..4] == Stages;
  }

  /** No two agents write the same key. */
  lemma OutputKeysDistinct()
    ensures var keys := OutputKeys(Stages);
            forall i, j :: 0 <= i < j < |keys| ==> keys[i] != keys[j]
  {
    StageOrderAndKeys();
  }

  /** Every key an agent reads is written by a strictly earlier stage. */
  predicate ReadsWrittenEarlier(stages: seq<Stage>) {
    forall i, a, k :: 0 <= i < |stages| && a in AgentsOf(stages[i]) && k in a.readKeys ==> k in OutputKeys(stages[..i])
  }

  lemma PipelineReadsWrittenEarlier()
    ensures ReadsWrittenEarlier(Stages)
  {
    OutputKeysOfPrefixes();
  }

  /** `web_analysis` is written but no agent ever reads it: the final stage
      reads only the query and the video analysis. */
  lemma WebAnalysisNeverRead()
    ensures "web_analysis" in OutputKeys(Stages)
    ensures forall i, a :: 0 <= i < |Stages| && a in AgentsOf(Stages[i]) ==> "web_analysis" !in a.readKeys
  {
    StageOrderAndKeys();
  }

  /** Only the final stage is bound to the verdict schema, and each agent has
      exactly its own tool. */
  lemma SchemaAndTools()
    ensures forall i, a :: 0 <= i < |Stages| && a in AgentsOf(Stages[i]) ==>
              (a.schema == FactCheckResultSchema <==> i == |Stages| - 1)
    ensures AgentsOf(Stages[1])[0].tools == [SearchTheWebAndYoutube]
    ensures AgentsOf(Stages[2])[0].tools == [SummarizeWebPages]
    ensures AgentsOf(Stages[2])[1].tools == [SummarizeYoutubeVideosInBulk]
    ensures AgentsOf(Stages[0])[0].tools == [] && AgentsOf(Stages[3])[0].tools == []
  {
  }

  // ---------------------------------------------------------------------------
  // Running the dataflow
  // ---------------------------------------------------------------------------

  type State = map<string, string>

  /** One agent's turn: it sees `seen` and its answer is stored in `into`. */
  function RunAgent(a: Agent, seen: State, into: State, produce: (string, State) -> string): (r: State)
    ensures r.Keys == into.Keys + {a.outputKey}
  {
    into[a.outputKey := produce(a.name, seen)]
  }

  /** The branches of a parallel stage all see `seen`; their writes are
      merged into `into` in branch order. */
  function RunBranches(branches: seq<Agent>, seen: State, into: State, produce: (string, State) -> string): (r: State)
    decreases |branches|
  {
    if |branches| == 0 then into
    else RunBranches(branches[1..], seen, RunAgent(branches[0], seen, into, produce), produce)
  }

  /** A stage: each of its agents sees the state as the stage found it. */
  function RunStage(s: Stage, state: State, produce: (string, State) -> string): State {
    match s
    case Single(a) => RunAgent(a, state, state, produce)
    case Parallel(_, bs) => RunBranches(bs, state, state, produce)
  }

  /** The stages in order, each on the state the previous one left. */
  function Run(stages: seq<Stage>, state: State, produce: (string, State) -> string): State
    decreases |stages|
  {
    if |stages| == 0 then state else Run(stages[1..], RunStage(stages[0], state, produce), produce)
  }

  /** Merging branches adds exactly their keys. */
  lemma {:induction false} RunBranchesKeys(branches: seq<Agent>, seen: State, into: State, produce: (string, State) -> string)
    ensures forall k :: k in RunBranches(branches, seen, into, produce) <==> k in into || k in KeysOf(branches)
    decreases |branches|
  {
    if |branches| > 0 {
      RunBranchesKeys(branches[1..], seen, RunAgent(branches[0], seen, into, produce), produce);
    }
  }

  /** After running some stages, the state holds what it held before plus
      exactly the keys the stages write. */
  lemma {:induction false} RunKeys(stages: seq<Stage>, state: State, produce: (string, State) -> string)
    ensures forall k :: k in Run(stages, state, produce) <==> k in state || k in OutputKeys(stages)
    decreases |stages|
  {
    if |stages| > 0 {
      var next := RunStage(stages[0], state, produce);
      RunKeys(stages[1..], next, produce);
      match stages[0]
      case Single(a) =>
        assert KeysOf([a]) == [a.outputKey] by {
          assert [a][1..] == [];
        }
      case Parallel(_, bs) =>
        RunBranchesKeys(bs, state, state, produce);
    }
  }

  /** Read-after-write: whatever the agents answer and whatever the initial
      state, every key an agent reads is present when its stage starts. */
  lemma ReadsAvailable(state: State, produce: (string, State) -> string, i: nat, a: Agent, k: string)
    requires i < |Stages| && a in AgentsOf(Stages[i]) && k in a.readKeys
    ensures k in Run(Stages[..i], state, produce)
  {
    PipelineReadsWrittenEarlier();
    RunKeys(Stages[..i], state, produce);
  }

  /** Two branches writing different keys can be merged in either order. */
  lemma BranchMergeCommutes(a: Agent, b: Agent, seen: State, into: State, produce: (string, State) -> string)
    requires a.outputKey != b.outputKey
    ensures RunBranches([a, b], seen, into, produce) == RunBranches([b, a], seen, into, produce)
  {
    assert [a, b][1..] == [b];
    assert [b, a][1..] == [a];
    assert [b][1..] == [];
    assert [a][1..] == [];
    var va := produce(a.name, seen);
    var vb := produce(b.name, seen);
    assert into[a.outputKey := va][b.outputKey := vb] == into[b.outputKey := vb][a.outputKey := va];
  }

  /** The pipeline's parallel stage is such a pair. */
  lemma ParallelSummarizerCommutes(seen: State, produce: (string, State) -> string)
    ensures RunStage(Stages[2], seen, produce) ==
              RunStage(Parallel("ParallelSummarizer", [VideoSummarizer, WebSummarizer]), seen, produce)
  {
    BranchMergeCommutes(WebSummarizer, VideoSummarizer, seen, seen, produce);
  }
}
