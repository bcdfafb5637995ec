/** Any number of workers claiming at once, interleaved at the granularity of store calls. */
module ClaimRace {
  import opened Jobs
  import opened JobHistory
  import opened JobRuns

  /** A worker between calls, or scanning a list of ids it read earlier. */
  datatype Worker = Idle | Scanning(user: string, agent: string, runner: string, todo: seq<string>)

  /** Job `job` was handed to worker `to` by event `index` of the store's run. */
  datatype Handout = Handout(to: nat, job: string, index: nat)

  datatype World = World(run: Run, workers: map<nat, Worker>, handed: seq<Handout>)

  const DAWN := World(START, map[], [])

  /** `Look` stores a list that may be out of date by the time it is used; `Try` is one
      compare-and-set on the head of that list; `Other` is any store write but a claim. */
  datatype Move =
    | Look(w: nat, user: string, agent: string, runner: string, list: seq<string>)
    | Try(w: nat, at: Time)
    | GiveUp(w: nat)
    | Other(e: Event)

  function WorkerOf(a: World, w: nat): Worker { if w in a.workers then a.workers[w] else Idle }

  predicate Claimable(s: State, id: string, user: string) {
    id in s.jobs && s.jobs[id].userId == user && s.jobs[id].status.Claimable()
  }

  ghost predicate Next(cfg: Config, a: World, m: Move, b: World)
    requires a.run.states != []
  {
    match m
    case Look(w, user, agent, runner, list) =>
      WorkerOf(a, w).Idle? && b == a.(workers := a.workers[w := Scanning(user, agent, runner, list)])
    case GiveUp(w) =>
      WorkerOf(a, w).Scanning? && WorkerOf(a, w).todo == [] && b == a.(workers := a.workers[w := Idle])
    case Other(e) => !e.Claim? && Enabled(cfg, Now(a.run), e) && b == a.(run := Then(cfg, a.run, e))
    case Try(w, at) =>
      && at != 0 && WorkerOf(a, w).Scanning? && WorkerOf(a, w).todo != []
      && var k := WorkerOf(a, w); var id := k.todo[0];
         if Claimable(Now(a.run), id, k.user) then
           var claim := Claim(id, k.agent, k.runner, at);
           Enabled(cfg, Now(a.run), claim)
           && b == World(Then(cfg, a.run, claim), a.workers[w := Idle], a.handed + [Handout(w, id, |a.run.events|)])
         else b == a.(workers := a.workers[w := k.(todo := k.todo[1..])])
  }

  ghost predicate Execution(cfg: Config, worlds: seq<World>, moves: seq<Move>) {
    && |worlds| == |moves| + 1 && worlds[0] == DAWN
    && (forall n :: 0 <= n < |worlds| ==> worlds[n].run.states != [])
    && forall n :: 0 <= n < |moves| ==> Next(cfg, worlds[n], moves[n], worlds[n + 1])
  }

  function HandedCount(handed: seq<Handout>, id: string): nat {
    if handed == [] then 0
    else HandedCount(handed[..|handed| - 1], id) + if handed[|handed| - 1].job == id then 1 else 0
  }

  /** The hand-outs are the claims of the run, in order. */
  ghost predicate InStep(cfg: Config, a: World) {
    && Legal(cfg, a.run)
    && (forall id :: HandedCount(a.handed, id) == ClaimCount(a.run, |a.run.events|, id))
    && (forall k :: 0 <= k < |a.handed| ==>
          a.handed[k].index < |a.run.events| && Claims(a.run.events[a.handed[k].index], a.handed[k].job))
    && (forall k, m :: 0 <= k < m < |a.handed| ==> a.handed[k].index < a.handed[m].index)
  }

  lemma {:induction false} CountKept(cfg: Config, r: Run, e: Event, n: nat, id: string)
    requires r.states != [] && Enabled(cfg, Now(r), e) && n <= |r.events|
    ensures ClaimCount(Then(cfg, r, e), n, id) == ClaimCount(r, n, id)
  {
    hide Apply, Enabled;
    if n > 0 { CountKept(cfg, r, e, n - 1, id); }
  }

  lemma CountGrows(cfg: Config, r: Run, e: Event)
    requires r.states != [] && Enabled(cfg, Now(r), e)
    ensures forall id :: ClaimCount(Then(cfg, r, e), |r.events| + 1, id)
                         == ClaimCount(r, |r.events|, id) + if Claims(e, id) then 1 else 0
  {
    hide Apply, Enabled;
    forall id { CountKept(cfg, r, e, |r.events|, id); }
  }

  lemma OtherInStep(cfg: Config, a: World, e: Event)
    requires InStep(cfg, a) && Enabled(cfg, Now(a.run), e) && !e.Claim?
    ensures InStep(cfg, a.(run := Then(cfg, a.run, e)))
  {
    hide Apply, Enabled;
    Extend(cfg, a.run, e);
    CountGrows(cfg, a.run, e);
  }

  lemma HandoutInStep(cfg: Config, a: World, w: nat, claim: Event, workers: map<nat, Worker>)
    requires InStep(cfg, a) && claim.Claim? && Enabled(cfg, Now(a.run), claim)
    ensures InStep(cfg, World(Then(cfg, a.run, claim), workers, a.handed + [Handout(w, claim.id, |a.run.events|)]))
  {
    hide Apply, Enabled;
    Extend(cfg, a.run, claim);
    CountGrows(cfg, a.run, claim);
    var handed := a.handed + [Handout(w, claim.id, |a.run.events|)];
    assert handed[..|a.handed|] == a.handed;
  }

  lemma MoveInStep(cfg: Config, a: World, m: Move, b: World)
    requires InStep(cfg, a) && Next(cfg, a, m, b)
    ensures InStep(cfg, b)
  {
    hide Apply, Enabled, Step;
    match m
    case Look(_, _, _, _, _) =>
    case GiveUp(_) =>
    case Other(e) => OtherInStep(cfg, a, e);
    case Try(w, at) =>
      var k := WorkerOf(a, w);
      if Claimable(Now(a.run), k.todo[0], k.user) {
        HandoutInStep(cfg, a, w, Claim(k.todo[0], k.agent, k.runner, at), b.workers);
      }
  }

  lemma {:induction false} AlwaysInStep(cfg: Config, worlds: seq<World>, moves: seq<Move>, n: nat)
    requires Execution(cfg, worlds, moves) && n < |worlds|
    ensures InStep(cfg, worlds[n])
  {
    hide Next;
    if n > 0 {
      AlwaysInStep(cfg, worlds, moves, n - 1);
      assert Next(cfg, worlds[n - 1], moves[n - 1], worlds[n]);
      MoveInStep(cfg, worlds[n - 1], moves[n - 1], worlds[n]);
    }
  }

  /** However the workers interleave, a job's attempt count is the number of times it was handed out. */
  lemma AttemptsAreHandouts(cfg: Config, worlds: seq<World>, moves: seq<Move>, n: nat, id: string)
    requires Execution(cfg, worlds, moves) && n < |worlds| && id in Now(worlds[n].run).jobs
    ensures Now(worlds[n].run).jobs[id].attemptCount == HandedCount(worlds[n].handed, id)
  {
    AlwaysInStep(cfg, worlds, moves, n);
    var r := worlds[n].run;
    Budget(cfg, r, |r.events|, id);
  }

  /** Two hand-outs of one job have a return to pending between them, so no two workers hold
      it at once. */
  lemma NoDoubleHandout(cfg: Config, worlds: seq<World>, moves: seq<Move>, n: nat, k: nat, m: nat)
    requires Execution(cfg, worlds, moves) && n < |worlds|
    requires k < m < |worlds[n].handed| && worlds[n].handed[k].job == worlds[n].handed[m].job
    ensures var a := worlds[n];
            && |a.run.states| == |a.run.events| + 1 && a.handed[m].index < |a.run.events|
            && exists i :: a.handed[k].index < i < a.handed[m].index && Returned(a.run, i, a.handed[k].job)
  {
    AlwaysInStep(cfg, worlds, moves, n);
    var a := worlds[n];
    ClaimsAlternate(cfg, a.run, a.handed[k].index, a.handed[m].index, a.handed[k].job);
  }
}
