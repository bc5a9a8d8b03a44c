/** The implementation/review workflow, run in supersteps.

    All nodes active in a superstep run; their writes are applied; then each node's edges are
    followed and the targets, taken together, are active next. What agents, CI and people
    decide is the `Outcome` of a superstep and is arbitrary. The run ends when nothing is
    active; human review is where the modelled run ends well. */
module Workflow {
  import opened Options
  import opened Runs

  type Inputs = map<string, string>

  datatype Node =
    | Workspace | Spec | Naming | Implementation | CiCheck | Review(facet: string)
    | Refute | Reranker | ImpactAnalysis | Verification | HumanReview | Triage

  /** A change request: GitHub's pull request or GitLab's merge request, and its number in decimal. */
  datatype Target = Pull(number: string) | Merge(number: string)

  /** How the graph was built. `changeRequest` reads the change request a URL names. */
  datatype Config = Config(facets: set<string>, verification: bool, changeRequest: string -> Option<Target>)

  /** The state keys this workflow reads. A missing `review_rounds` counts as 0. */
  datatype Values = Values(inputs: Inputs, ci: Option<bool>, review: seq<string>, rounds: nat, fix: seq<string>)

  /** What the active nodes decide: CI's verdict, the findings that survive, the findings chosen. */
  datatype Outcome = Outcome(ciPassed: bool, findings: seq<string>, chosen: seq<string>)

  datatype Superstep = Superstep(nodes: set<Node>, values: Values)

  /** The run: state, what is active, every superstep taken with the values its nodes read, and
      how often CI failed so far. */
  datatype Graph = Graph(config: Config, values: Values, active: set<Node>, history: seq<Superstep>, ciFailures: nat)

  // ---------------------------------------------------------------- reading the inputs

  function Input(inputs: Inputs, key: string): string {
    if key in inputs then inputs[key] else ""
  }

  /** Whether the run started in review, at a change it did not make. */
  predicate Reviewing(inputs: Inputs) {
    Input(inputs, "state") == "Review" || Input(inputs, "ref") != "" || Input(inputs, "pr_url") != ""
  }

  /** The input reads "true" in any mixture of cases. */
  predicate Enabled(inputs: Inputs, key: string) {
    var s := Input(inputs, key);
    |s| == 4 && s[0] in "tT" && s[1] in "rR" && s[2] in "uU" && s[3] in "eE"
  }

  /** The workspace node names the ref to check out; a URL that names no change is an error. */
  function NameRef(config: Config, inputs: Inputs): Option<Inputs> {
    if !Reviewing(inputs) || Input(inputs, "ref") != "" then Some(inputs)
    else if Input(inputs, "pr_url") != "" then
      match config.changeRequest(Input(inputs, "pr_url"))
      case None => None
      case Some(target) =>
        var path := if target.Pull? then "pull/" + target.number + "/head" else "merge-requests/" + target.number + "/head";
        Some(inputs["ref" := "origin/refs/" + path])
    else if Input(inputs, "branch") != "" then Some(inputs["ref" := Input(inputs, "branch")])
    else Some(inputs["ref" := "HEAD"])
  }

  // ---------------------------------------------------------------- prompts and routes

  datatype Prompt = Base | FixCi | FixFindings

  /** The prompt the implementation node is given. */
  function PromptOf(v: Values): Prompt {
    if v.ci == Some(false) then FixCi
    else if (if Reviewing(v.inputs) then v.fix != [] else v.review != [] && v.rounds == 1) then FixFindings
    else Base
  }

  function Facets(config: Config): set<Node> {
    set f | f in config.facets :: Review(f)
  }

  function Routes(config: Config, n: Node, v: Values): set<Node> {
    match n
    case Workspace =>
      if Reviewing(v.inputs) then Facets(config) else if Enabled(v.inputs, "spec") then {Spec} else {Naming}
    case Spec => {Naming}
    case Naming => {Implementation}
    case Implementation => {CiCheck}
    case CiCheck => if v.ci == Some(true) then Facets(config) else {Implementation}
    case Review(_) => if Enabled(v.inputs, "adversarial") then {Refute} else {Reranker}
    case Refute => {Reranker}
    case Reranker =>
      if Reviewing(v.inputs) then {Triage}
      else if v.review != [] && v.rounds == 1 then {Implementation}
      else {ImpactAnalysis}
    case Triage => if v.fix != [] then {Implementation} else {}
    case ImpactAnalysis => if config.verification then {Verification} else {HumanReview}
    case Verification => {HumanReview}
    case HumanReview => {}
  }

  /** The writes of a superstep. */
  function Write(v: Values, active: set<Node>, inputs: Inputs, o: Outcome): Values {
    Values(if Workspace in active then inputs else v.inputs,
           if CiCheck in active then Some(o.ciPassed) else v.ci,
           if Reranker in active then o.findings else v.review,
           if Reranker in active then v.rounds + 1 else v.rounds,
           if Triage in active then o.chosen else v.fix)
  }

  function Targets(config: Config, active: set<Node>, v: Values): set<Node> {
    set n, m | n in active && m in Routes(config, n, v) :: m
  }

  function Step(g: Graph, o: Outcome): Graph {
    if g.active == {} then g
    else
      var taken := g.(history := g.history + [Superstep(g.active, g.values)]);
      match NameRef(g.config, g.values.inputs)
      case None => if Workspace in g.active then taken.(active := {}) else Advance(taken, g.values.inputs, o)
      case Some(inputs) => Advance(taken, inputs, o)
  }

  function Advance(g: Graph, inputs: Inputs, o: Outcome): Graph {
    var v := Write(g.values, g.active, inputs, o);
    g.(values := v,
       active := Targets(g.config, g.active, v),
       ciFailures := g.ciFailures + if CiCheck in g.active && !o.ciPassed then 1 else 0)
  }

  function Start(config: Config, inputs: Inputs): Graph {
    Graph(config, Values(inputs, None, [], 0, []), {Workspace}, [], 0)
  }

  // ---------------------------------------------------------------- fan-out and fan-in

  lemma TargetsOfOne(config: Config, n: Node, v: Values)
    ensures Targets(config, {n}, v) == Routes(config, n, v)
  {
    forall m | m in Routes(config, n, v) ensures m in Targets(config, {n}, v) { assert n in {n}; }
  }

  /** All facets converge on one node. */
  lemma TargetsOfFacets(config: Config, v: Values)
    requires config.facets != {}
    ensures Targets(config, Facets(config), v) == if Enabled(v.inputs, "adversarial") then {Refute} else {Reranker}
  {
    var f :| f in config.facets;
    assert Review(f) in Facets(config);
    var m := if Enabled(v.inputs, "adversarial") then Refute else Reranker;
    assert m in Routes(config, Review(f), v);
  }

  /** Naming the ref leaves a review run in review, and the other runs as they are. */
  lemma ReviewModeKept(config: Config, inputs: Inputs)
    ensures var r := NameRef(config, inputs);
      r.Some? ==> Reviewing(r.value) == Reviewing(inputs) && (Reviewing(inputs) ==> Input(r.value, "ref") != "")
    ensures NameRef(config, inputs).None? ==> Reviewing(inputs)
  {}

  /** Which ref a review is checked out at: the one given, else the head of the change request named, else
      the branch given, else the head. Nothing else changes, and only a review that names an unreadable
      change request and no ref fails. */
  lemma RefNamed(config: Config, inputs: Inputs)
    requires Reviewing(inputs) && Input(inputs, "ref") == ""
    ensures var url, branch, r := Input(inputs, "pr_url"), Input(inputs, "branch"), NameRef(config, inputs);
      && (r.None? <==> url != "" && config.changeRequest(url) == None)
      && (r.Some? ==> forall key :: key != "ref" ==> Input(r.value, key) == Input(inputs, key))
      && (forall n :: url != "" && config.changeRequest(url) == Some(Pull(n)) ==>
            r.Some? && Input(r.value, "ref") == "origin/refs/pull/" + n + "/head")
      && (forall n :: url != "" && config.changeRequest(url) == Some(Merge(n)) ==>
            r.Some? && Input(r.value, "ref") == "origin/refs/merge-requests/" + n + "/head")
      && (url == "" && branch != "" ==> r.Some? && Input(r.value, "ref") == branch)
      && (url == "" && branch == "" ==> r.Some? && Input(r.value, "ref") == "HEAD")
  {
    var url := Input(inputs, "pr_url");
    if url != "" && config.changeRequest(url).Some? {
      var n := config.changeRequest(url).value.number;
      assert "origin/refs/" + ("pull/" + n + "/head") == "origin/refs/pull/" + n + "/head";
      assert "origin/refs/" + ("merge-requests/" + n + "/head") == "origin/refs/merge-requests/" + n + "/head";
    }
  }

  /** A run starts in review when it says so, or is given a ref or a change request. */
  lemma ReviewingMeans(inputs: Inputs)
    ensures "ref" in inputs && inputs["ref"] != "" ==> Reviewing(inputs)
    ensures "pr_url" in inputs && inputs["pr_url"] != "" ==> Reviewing(inputs)
    ensures "state" in inputs && inputs["state"] == "Review" ==> Reviewing(inputs)
    ensures Reviewing(inputs) ==> "ref" in inputs || "pr_url" in inputs || "state" in inputs
  {}

  lemma OtherRunsKeepInputs(config: Config, inputs: Inputs)
    requires !Reviewing(inputs) || Input(inputs, "ref") != ""
    ensures NameRef(config, inputs) == Some(inputs)
  {}

  function Lower(c: char): char {
    if 'A' <= c <= 'Z' then (c as int + 32) as char else c
  }

  /** A switch is on when it reads "true" in any mixture of cases. */
  lemma EnabledMeans(inputs: Inputs, key: string)
    ensures Enabled(inputs, key) <==>
      |Input(inputs, key)| == 4 && forall i :: 0 <= i < 4 ==> Lower(Input(inputs, key)[i]) == "true"[i]
  {
    var s := Input(inputs, key);
    if |s| == 4 {
      assert s[0] in "tT" <==> Lower(s[0]) == 't';
      assert s[1] in "rR" <==> Lower(s[1]) == 'r';
      assert s[2] in "uU" <==> Lower(s[2]) == 'u';
      assert s[3] in "eE" <==> Lower(s[3]) == 'e';
    }
  }

  // ---------------------------------------------------------------- the whole-run invariant

  ghost predicate EndsWith(h: seq<Superstep>, tail: seq<set<Node>>) {
    |tail| <= |h| && forall i :: 0 <= i < |tail| ==> h[|h| - |tail| + i].nodes == tail[i]
  }

  /** Implementation, then CI, then every facet have run, in this order and with nothing between. */
  ghost predicate FacetsRan(config: Config, h: seq<Superstep>) {
    || EndsWith(h, [{Implementation}, {CiCheck}, Facets(config)])
    || EndsWith(h, [{Implementation}, {CiCheck}, Facets(config), {Refute}])
  }

  /** ... and then the reranker. */
  ghost predicate Reviewed(config: Config, h: seq<Superstep>) {
    || EndsWith(h, [{Implementation}, {CiCheck}, Facets(config), {Reranker}])
    || EndsWith(h, [{Implementation}, {CiCheck}, Facets(config), {Refute}, {Reranker}])
  }

  ghost predicate NoReviewYet(v: Values) {
    v.ci == None && v.review == [] && v.rounds == 0 && v.fix == []
  }

  /** How a run gets to the implementation node, and what the state then says. */
  ghost predicate Entered(v: Values, from: set<Node>) {
    || (from == {Naming} && !Reviewing(v.inputs) && NoReviewYet(v))
    || (from == {CiCheck} && v.ci == Some(false))
    || (from == {Reranker} && !Reviewing(v.inputs) && v.ci == Some(true) && v.review != [] && v.rounds == 1)
    || (from == {Triage} && Reviewing(v.inputs) && v.ci != Some(false) && v.fix != [])
  }

  /** Where a run can be: at one node, at all review facets at once, or at its end. */
  datatype Place = At(node: Node) | AtFacets | Nowhere

  function NodesAt(config: Config, p: Place): set<Node> {
    match p
    case At(n) => {n}
    case AtFacets => Facets(config)
    case Nowhere => {}
  }

  /** What the state and the history say when the run is at `p`. */
  ghost predicate Says(config: Config, p: Place, v: Values, h: seq<Superstep>) {
    var review := Reviewing(v.inputs);
    match p
    case At(Workspace) => h == [] && NoReviewYet(v)
    case At(Spec) => !review && NoReviewYet(v)
    case At(Naming) => !review && NoReviewYet(v)
    case At(Implementation) => h != [] && Entered(v, h[|h| - 1].nodes) && (review || v.rounds <= 1)
    case At(CiCheck) => EndsWith(h, [{Implementation}]) && (review || v.rounds <= 1)
    case AtFacets =>
      v.ci != Some(false) && (review || (v.rounds <= 1 && v.ci == Some(true) && EndsWith(h, [{Implementation}, {CiCheck}])))
    case At(Refute) =>
      v.ci != Some(false) &&
      (review || (v.rounds <= 1 && v.ci == Some(true) && EndsWith(h, [{Implementation}, {CiCheck}, Facets(config)])))
    case At(Reranker) =>
      v.ci != Some(false) && (review || (v.rounds <= 1 && v.ci == Some(true) && FacetsRan(config, h)))
    case At(Triage) => review && v.ci != Some(false)
    case At(ImpactAnalysis) => !review && v.ci == Some(true) && 1 <= v.rounds <= 2 && Reviewed(config, h)
    case At(Verification) => !review && v.rounds <= 2
    case At(HumanReview) => !review && v.rounds <= 2
    case Nowhere => review || v.rounds <= 2
    case At(Review(_)) => false
  }

  /** The writes of a superstep at `p`. */
  function WriteAt(p: Place, v: Values, inputs: Inputs, o: Outcome): Values {
    match p
    case At(Workspace) => v.(inputs := inputs)
    case At(CiCheck) => v.(ci := Some(o.ciPassed))
    case At(Reranker) => v.(review := o.findings, rounds := v.rounds + 1)
    case At(Triage) => v.(fix := o.chosen)
    case _ => v
  }

  /** Where the run goes next. */
  function Goes(config: Config, p: Place, v: Values): Place {
    match p
    case At(Workspace) =>
      if Reviewing(v.inputs) then AtFacets else if Enabled(v.inputs, "spec") then At(Spec) else At(Naming)
    case At(Spec) => At(Naming)
    case At(Naming) => At(Implementation)
    case At(Implementation) => At(CiCheck)
    case At(CiCheck) => if v.ci == Some(true) then AtFacets else At(Implementation)
    case At(Review(_)) => AtFacets
    case AtFacets => if Enabled(v.inputs, "adversarial") then At(Refute) else At(Reranker)
    case At(Refute) => At(Reranker)
    case At(Reranker) =>
      if Reviewing(v.inputs) then At(Triage)
      else if v.review != [] && v.rounds == 1 then At(Implementation)
      else At(ImpactAnalysis)
    case At(Triage) => if v.fix != [] then At(Implementation) else Nowhere
    case At(ImpactAnalysis) => if config.verification then At(Verification) else At(HumanReview)
    case At(Verification) => At(HumanReview)
    case At(HumanReview) => Nowhere
    case Nowhere => Nowhere
  }

  lemma TargetsAt(config: Config, p: Place, v: Values)
    requires config.facets != {} && (p.At? ==> !p.node.Review?)
    ensures Targets(config, NodesAt(config, p), v) == NodesAt(config, Goes(config, p, v))
  {
    match p {
      case At(n) => TargetsOfOne(config, n, v);
      case AtFacets => TargetsOfFacets(config, v);
      case Nowhere =>
    }
  }

  /** The ref to be checked out, if it can be named; other supersteps do not look. */
  function Rewritten(g: Graph): Inputs {
    match NameRef(g.config, g.values.inputs)
    case None => g.values.inputs
    case Some(inputs) => inputs
  }

  /** A superstep at `p` moves the whole run to the next place. */
  lemma StepAt(g: Graph, o: Outcome, p: Place)
    requires g.config.facets != {} && g.active == NodesAt(g.config, p) && p != Nowhere && (p.At? ==> !p.node.Review?)
    ensures
      if p == At(Workspace) && NameRef(g.config, g.values.inputs).None?
      then Step(g, o) == g.(active := {}, history := g.history + [Superstep(g.active, g.values)])
      else var v := WriteAt(p, g.values, Rewritten(g), o);
        Step(g, o) == Graph(g.config, v, NodesAt(g.config, Goes(g.config, p, v)),
                            g.history + [Superstep(g.active, g.values)],
                            g.ciFailures + if p == At(CiCheck) && !o.ciPassed then 1 else 0)
  {
    var v := WriteAt(p, g.values, Rewritten(g), o);
    if p == AtFacets {
      var f :| f in g.config.facets;
      assert Review(f) in g.active;
    }
    assert v == Write(g.values, g.active, Rewritten(g), o);
    TargetsAt(g.config, p, v);
  }

  lemma EndsWithSnoc(h: seq<Superstep>, tail: seq<set<Node>>, s: Superstep)
    ensures EndsWith(h, tail) ==> EndsWith(h + [s], tail + [s.nodes])
    ensures EndsWith(h + [s], [s.nodes])
  {}

  /** The trail of supersteps behind the run, one superstep later. */
  lemma TrailGrows(config: Config, h: seq<Superstep>, s: Superstep)
    ensures (h + [s])[|h + [s]| - 1] == s && EndsWith(h + [s], [s.nodes])
    ensures EndsWith(h, [{Implementation}]) && s.nodes == {CiCheck} ==> EndsWith(h + [s], [{Implementation}, {CiCheck}])
    ensures EndsWith(h, [{Implementation}, {CiCheck}]) && s.nodes == Facets(config) ==>
      EndsWith(h + [s], [{Implementation}, {CiCheck}, Facets(config)])
    ensures EndsWith(h, [{Implementation}, {CiCheck}, Facets(config)]) && s.nodes == {Refute} ==>
      EndsWith(h + [s], [{Implementation}, {CiCheck}, Facets(config), {Refute}])
    ensures FacetsRan(config, h) && s.nodes == {Reranker} ==> Reviewed(config, h + [s])
  {
    EndsWithSnoc(h, [{Implementation}], s);
    EndsWithSnoc(h, [{Implementation}, {CiCheck}], s);
    EndsWithSnoc(h, [{Implementation}, {CiCheck}, Facets(config)], s);
    EndsWithSnoc(h, [{Implementation}, {CiCheck}, Facets(config), {Refute}], s);
  }

  lemma SaysNext(config: Config, p: Place, v: Values, h: seq<Superstep>, inputs: Inputs, o: Outcome, s: Superstep)
    requires Says(config, p, v, h) && p != Nowhere
    requires s.nodes == NodesAt(config, p) && Reviewing(inputs) == Reviewing(v.inputs)
    ensures var v' := WriteAt(p, v, inputs, o);
      Says(config, Goes(config, p, v'), v', h + [s]) && Reviewing(v'.inputs) == Reviewing(v.inputs)
  {
    TrailGrows(config, h, s);
  }

  // ---------------------------------------------------------------- what the history shows

  /** The prompt that belongs to the edge into the implementation node. */
  ghost predicate PromptFits(prompt: Prompt, from: set<Node>) {
    || (from == {Naming} && prompt == Base)
    || (from == {CiCheck} && prompt == FixCi)
    || ((from == {Reranker} || from == {Triage}) && prompt == FixFindings)
  }

  ghost predicate PromptsFit(h: seq<Superstep>) {
    forall i :: 0 <= i < |h| && Implementation in h[i].nodes ==>
      h[i].nodes == {Implementation} && i > 0 && PromptFits(PromptOf(h[i].values), h[i - 1].nodes)
  }

  /** The nodes a run of each mode may visit. */
  predicate Visits(review: bool, nodes: set<Node>) {
    if review then nodes !! {Spec, Naming, ImpactAnalysis, Verification, HumanReview} else Triage !in nodes
  }

  ghost predicate ModeKept(review: bool, h: seq<Superstep>) {
    forall i :: 0 <= i < |h| ==> Reviewing(h[i].values.inputs) == review && Visits(review, h[i].nodes)
  }

  /** How often a node ran. */
  function Ran(h: seq<Superstep>, n: Node): nat {
    if h == [] then 0
    else Ran(h[..|h| - 1], n) + if n in h[|h| - 1].nodes then 1 else 0
  }

  /** How often the implementation node was entered from the reranker. */
  function Fixes(h: seq<Superstep>): nat {
    if |h| < 2 then 0
    else Fixes(h[..|h| - 1]) + if h[|h| - 2].nodes == {Reranker} && h[|h| - 1].nodes == {Implementation} then 1 else 0
  }

  predicate LastWas(h: seq<Superstep>, n: Node) {
    h != [] && h[|h| - 1].nodes == {n}
  }

  ghost predicate CountsRight(p: Place, v: Values, h: seq<Superstep>) {
    && Ran(h, Reranker) == v.rounds
    && (!Reviewing(v.inputs) ==>
          && Fixes(h) <= 1
          && (v.rounds == 0 ==> Fixes(h) == 0)
          && (p == At(Implementation) && LastWas(h, Reranker) ==> Fixes(h) == 0))
  }

  /** The most supersteps a non-review run can still take if CI never fails again. */
  function Ahead(p: Place, rounds: nat): nat {
    match p
    case Nowhere => 0
    case At(HumanReview) => 1
    case At(Verification) => 2
    case At(ImpactAnalysis) => 3
    case At(Reranker) => if rounds == 0 then 9 else 4
    case At(Refute) => if rounds == 0 then 10 else 5
    case AtFacets => if rounds == 0 then 11 else 6
    case At(CiCheck) => if rounds == 0 then 12 else 7
    case At(Implementation) => if rounds == 0 then 13 else 8
    case At(Naming) => 14
    case At(Spec) => 15
    case At(Workspace) => 16
    case _ => 0
  }

  ghost predicate InBudget(p: Place, g: Graph) {
    !Reviewing(g.values.inputs) ==> |g.history| + Ahead(p, g.values.rounds) <= 16 + 2 * g.ciFailures
  }

  ghost predicate InvAt(g: Graph, p: Place) {
    && g.config.facets != {}
    && g.active == NodesAt(g.config, p)
    && Says(g.config, p, g.values, g.history)
    && PromptsFit(g.history)
    && ModeKept(Reviewing(g.values.inputs), g.history)
    && CountsRight(p, g.values, g.history)
    && InBudget(p, g)
  }

  ghost predicate Inv(g: Graph) {
    exists p :: InvAt(g, p)
  }

  /** What an implementation node reads is what the edge into it promises. */
  lemma EnteredFits(v: Values, from: set<Node>)
    requires Entered(v, from)
    ensures PromptFits(PromptOf(v), from)
  {}

  lemma PromptsSnoc(config: Config, p: Place, v: Values, h: seq<Superstep>)
    requires Says(config, p, v, h) && PromptsFit(h)
    ensures PromptsFit(h + [Superstep(NodesAt(config, p), v)])
  {
    if p == At(Implementation) { EnteredFits(v, h[|h| - 1].nodes); }
  }

  lemma ModeSnoc(config: Config, p: Place, v: Values, h: seq<Superstep>)
    requires Says(config, p, v, h) && ModeKept(Reviewing(v.inputs), h)
    ensures ModeKept(Reviewing(v.inputs), h + [Superstep(NodesAt(config, p), v)])
  {
    assert Visits(Reviewing(v.inputs), NodesAt(config, p));
  }

  lemma RanSnoc(h: seq<Superstep>, s: Superstep)
    ensures Ran(h + [s], Reranker) == Ran(h, Reranker) + if Reranker in s.nodes then 1 else 0
    ensures Fixes(h + [s]) == Fixes(h) + if LastWas(h, Reranker) && s.nodes == {Implementation} then 1 else 0
  {
    var more := h + [s];
    assert more[..|more| - 1] == h;
    if h != [] { assert more[|more| - 2] == h[|h| - 1]; }
  }

  lemma CountsNext(config: Config, p: Place, v: Values, h: seq<Superstep>, inputs: Inputs, o: Outcome)
    requires Says(config, p, v, h) && p != Nowhere && CountsRight(p, v, h)
    requires Reviewing(inputs) == Reviewing(v.inputs)
    ensures var v' := WriteAt(p, v, inputs, o);
      CountsRight(Goes(config, p, v'), v', h + [Superstep(NodesAt(config, p), v)])
  {
    var s := Superstep(NodesAt(config, p), v);
    RanSnoc(h, s);
    assert (h + [s])[|h|] == s;
  }

  lemma CrashCounts(v: Values, h: seq<Superstep>, s: Superstep)
    requires CountsRight(At(Workspace), v, h) && s.nodes == {Workspace}
    ensures CountsRight(Nowhere, v, h + [s])
  {
    RanSnoc(h, s);
  }

  /** The graph one superstep later, when the run is at `p` and the ref can be named. */
  function Moved(g: Graph, o: Outcome, p: Place): Graph {
    var v := WriteAt(p, g.values, Rewritten(g), o);
    Graph(g.config, v, NodesAt(g.config, Goes(g.config, p, v)),
          g.history + [Superstep(NodesAt(g.config, p), g.values)],
          g.ciFailures + if p == At(CiCheck) && !o.ciPassed then 1 else 0)
  }

  lemma BudgetNext(g: Graph, o: Outcome, p: Place)
    requires Says(g.config, p, g.values, g.history) && p != Nowhere && InBudget(p, g)
    requires Reviewing(Rewritten(g)) == Reviewing(g.values.inputs)
    ensures InBudget(Goes(g.config, p, Moved(g, o, p).values), Moved(g, o, p))
  {}

  lemma InvMoved(g: Graph, o: Outcome, p: Place)
    requires InvAt(g, p) && p != Nowhere && Reviewing(Rewritten(g)) == Reviewing(g.values.inputs)
    ensures InvAt(Moved(g, o, p), Goes(g.config, p, Moved(g, o, p).values))
    ensures Reviewing(Moved(g, o, p).values.inputs) == Reviewing(g.values.inputs)
  {
    PromptsSnoc(g.config, p, g.values, g.history);
    ModeSnoc(g.config, p, g.values, g.history);
    SaysNext(g.config, p, g.values, g.history, Rewritten(g), o, Superstep(NodesAt(g.config, p), g.values));
    CountsNext(g.config, p, g.values, g.history, Rewritten(g), o);
    BudgetNext(g, o, p);
  }

  lemma InvCrashed(g: Graph)
    requires InvAt(g, At(Workspace)) && Reviewing(g.values.inputs)
    ensures InvAt(g.(active := {}, history := g.history + [Superstep({Workspace}, g.values)]), Nowhere)
  {
    PromptsSnoc(g.config, At(Workspace), g.values, g.history);
    ModeSnoc(g.config, At(Workspace), g.values, g.history);
    CrashCounts(g.values, g.history, Superstep({Workspace}, g.values));
  }

  lemma InvKept(g: Graph, o: Outcome)
    requires Inv(g)
    ensures Inv(Step(g, o)) && Step(g, o).config == g.config
    ensures Reviewing(Step(g, o).values.inputs) == Reviewing(g.values.inputs)
  {
    var p :| InvAt(g, p);
    if p == Nowhere {
      assert Step(g, o) == g;
    } else {
      StepAt(g, o, p);
      ReviewModeKept(g.config, g.values.inputs);
      if p == At(Workspace) && NameRef(g.config, g.values.inputs).None? {
        InvCrashed(g);
        assert InvAt(Step(g, o), Nowhere);
      } else {
        InvMoved(g, o, p);
        assert Step(g, o) == Moved(g, o, p);
      }
    }
  }

  /** Every run, whatever agents, CI and people decide, keeps the invariant and its mode. */
  lemma {:induction false} EveryRun(config: Config, inputs: Inputs, os: seq<Outcome>)
    requires config.facets != {}
    ensures var g := Run(Step, Start(config, inputs), os);
      Inv(g) && g.config == config && Reviewing(g.values.inputs) == Reviewing(inputs)
  {
    var inv := (g: Graph) => Inv(g) && g.config == config && Reviewing(g.values.inputs) == Reviewing(inputs);
    forall g: Graph, o | inv(g) ensures inv(Step(g, o)) { InvKept(g, o); }
    assert InvAt(Start(config, inputs), At(Workspace));
    RunKeeps(Step, inv, Start(config, inputs), os);
  }

  // ---------------------------------------------------------------- the theorems

  /** Every time the implementation node ran, it ran alone, and its prompt was the one of the edge
      it was entered by: the base prompt from naming, the CI prompt from a failed check, the
      findings prompt from the reranker or from triage. */
  lemma {:induction false} PromptMatchesEdge(config: Config, inputs: Inputs, os: seq<Outcome>)
    requires config.facets != {}
    ensures PromptsFit(Run(Step, Start(config, inputs), os).history)
  {
    EveryRun(config, inputs, os);
  }

  /** Impact analysis is reached only after CI passed since the last implementation, and every
      review facet and then the reranker ran since that pass. */
  lemma {:induction false} ImpactIsReviewed(config: Config, inputs: Inputs, os: seq<Outcome>)
    requires config.facets != {}
    requires ImpactAnalysis in Run(Step, Start(config, inputs), os).active
    ensures var g := Run(Step, Start(config, inputs), os);
      g.active == {ImpactAnalysis} && g.values.ci == Some(true) && Reviewed(config, g.history)
  {
    EveryRun(config, inputs, os);
    ImpactPlaced(Run(Step, Start(config, inputs), os));
  }

  lemma ImpactPlaced(g: Graph)
    requires Inv(g) && ImpactAnalysis in g.active
    ensures g.active == {ImpactAnalysis} && g.values.ci == Some(true) && Reviewed(g.config, g.history)
  {
    var p :| InvAt(g, p);
    assert p == At(ImpactAnalysis);
  }

  /** A run that was not started in review never reaches triage, runs the reranker at most twice,
      makes at most one fix for the reranker's findings, and takes at most 16 supersteps plus
      two for every time CI failed. A review run never reaches naming, impact analysis or
      human review. */
  lemma {:induction false} RunsAreBounded(config: Config, inputs: Inputs, os: seq<Outcome>)
    requires config.facets != {}
    ensures var g := Run(Step, Start(config, inputs), os);
      && ModeKept(Reviewing(inputs), g.history)
      && (!Reviewing(inputs) ==>
            && Ran(g.history, Reranker) <= 2 && Fixes(g.history) <= 1
            && |g.history| <= 16 + 2 * g.ciFailures)
  {
    EveryRun(config, inputs, os);
    var g := Run(Step, Start(config, inputs), os);
    var p :| InvAt(g, p);
  }

  /** A run that has not ended took one superstep for every outcome. */
  lemma {:induction false} HistoryGrows(g: Graph, os: seq<Outcome>)
    ensures Run(Step, g, os).active != {} ==> |Run(Step, g, os).history| == |g.history| + |os|
    decreases |os|
  {
    if os != [] { HistoryGrows(g, os[..|os| - 1]); }
  }

  /** So a run that was not started in review ends, unless CI fails again and again. */
  lemma {:induction false} RunsEnd(config: Config, inputs: Inputs, os: seq<Outcome>)
    requires config.facets != {} && !Reviewing(inputs)
    requires |os| > 16 + 2 * Run(Step, Start(config, inputs), os).ciFailures
    ensures Run(Step, Start(config, inputs), os).active == {}
  {
    RunsAreBounded(config, inputs, os);
    HistoryGrows(Start(config, inputs), os);
  }

  // ---------------------------------------------------------------- optional nodes

  /** The specification, the refutation and the verification run only where they were asked for. */
  ghost predicate AskedFor(config: Config, nodes: set<Node>, inputs: Inputs) {
    && (Spec in nodes ==> Enabled(inputs, "spec"))
    && (Refute in nodes ==> Enabled(inputs, "adversarial"))
    && (Verification in nodes ==> config.verification)
  }

  ghost predicate OnlyAskedFor(g: Graph) {
    && AskedFor(g.config, g.active, g.values.inputs)
    && (forall i :: 0 <= i < |g.history| ==> AskedFor(g.config, g.history[i].nodes, g.history[i].values.inputs))
  }

  lemma TargetsAskedFor(config: Config, active: set<Node>, v: Values)
    ensures AskedFor(config, Targets(config, active, v), v.inputs)
  {
    if Spec in Targets(config, active, v) { var n :| n in active && Spec in Routes(config, n, v); }
    if Refute in Targets(config, active, v) { var n :| n in active && Refute in Routes(config, n, v); }
    if Verification in Targets(config, active, v) { var n :| n in active && Verification in Routes(config, n, v); }
  }

  lemma AskedForKept(g: Graph, o: Outcome)
    requires OnlyAskedFor(g)
    ensures OnlyAskedFor(Step(g, o)) && Step(g, o).config == g.config
  {
    if g.active != {} {
      TargetsAskedFor(g.config, g.active, Write(g.values, g.active, g.values.inputs, o));
      TargetsAskedFor(g.config, g.active, Write(g.values, g.active, Rewritten(g), o));
    }
  }

  /** On every run. */
  lemma {:induction false} OptionalNodes(config: Config, inputs: Inputs, os: seq<Outcome>)
    ensures OnlyAskedFor(Run(Step, Start(config, inputs), os))
  {
    forall g: Graph, o | OnlyAskedFor(g) ensures OnlyAskedFor(Step(g, o)) { AskedForKept(g, o); }
    RunKeeps(Step, (g: Graph) => OnlyAskedFor(g), Start(config, inputs), os);
  }

  /** Where they were asked for, they run: a run that is not in review writes its specification before
      naming, a review is refuted before it is ranked, and impact is verified before people look. */
  lemma AskedForRuns(config: Config, v: Values)
    ensures !Reviewing(v.inputs) && Enabled(v.inputs, "spec") ==> Goes(config, At(Workspace), v) == At(Spec)
    ensures Enabled(v.inputs, "adversarial") ==> Goes(config, AtFacets, v) == At(Refute)
    ensures config.verification ==> Goes(config, At(ImpactAnalysis), v) == At(Verification)
  {}
}
