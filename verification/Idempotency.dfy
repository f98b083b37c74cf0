/** The idempotency-key store, and any number of workers using it as its
    documentation prescribes: begin, do the work, then complete or release. */
module Idempotency {
  import opened Rows

  datatype Key = Key(scope: string, actor: nat, idempotencyKey: string)

  datatype Response = Response(statusCode: nat, body: string)

  /** No response while the request that reserved the key is being processed. */
  datatype Entry = Entry(fingerprint: string, response: Option<Response>)

  type Entries = map<Key, Entry>

  datatype Outcome = Proceed | Replay(response: Response) | KeyConflict | InProgress

  function OutcomeOf(entries: Entries, key: Key, fingerprint: string): Outcome {
    if key !in entries then Proceed
    else if entries[key].fingerprint != fingerprint then KeyConflict
    else if entries[key].response.None? then InProgress
    else Replay(entries[key].response.value)
  }

  class IdempotencyStore {
    var entries: Entries

    constructor ()
      ensures entries == map[]
    {
      entries := map[];
    }

    /** Reserves the key if it is free; otherwise changes nothing. When the store
        drops an expired key just after the reservation failed on it, the caller
        proceeds without one. */
    method Begin(key: Key, fingerprint: string, expiresNow: bool) returns (outcome: Outcome)
      modifies this
      ensures outcome == if expiresNow then Proceed else OutcomeOf(old(entries), key, fingerprint)
      ensures entries ==
        if key !in old(entries) then old(entries)[key := Entry(fingerprint, None)]
        else if expiresNow then old(entries) - {key} else old(entries)
    {
      if key !in entries {
        entries := entries[key := Entry(fingerprint, None)];
        return Proceed;
      }
      if expiresNow {
        entries := entries - {key};
      }
      if key !in entries {
        return Proceed;
      }
      var data := entries[key];
      if data.fingerprint != fingerprint {
        return KeyConflict;
      }
      if data.response.None? {
        return InProgress;
      }
      return Replay(data.response.value);
    }

    method Complete(key: Key, fingerprint: string, response: Response)
      modifies this
      ensures entries == old(entries)[key := Entry(fingerprint, Some(response))]
    {
      entries := entries[key := Entry(fingerprint, Some(response))];
    }

    method Release(key: Key)
      modifies this
      ensures entries == old(entries) - {key}
    {
      entries := entries - {key};
    }
  }

  // ----- workers -----

  /** The request a worker is processing under a key. */
  datatype Job = Job(key: Key, fingerprint: string)

  datatype Completion = Completion(key: Key, fingerprint: string, response: Response)

  /** expired collects the keys that the store has dropped so far. */
  datatype World = World(entries: Entries, jobs: map<nat, Job>, completions: seq<Completion>, expired: set<Key>)

  datatype Step =
    | Arrive(w: nat, key: Key, fingerprint: string, expiresNow: bool)
    | Finish(w: nat, response: Response)
    | Fail(w: nat)
    | Crash(w: nat)
    | Expire(key: Key)

  const START := World(map[], map[], [], {})

  /** A worker processes one request at a time. */
  predicate Possible(world: World, step: Step) {
    match step
    case Arrive(w, key, _, expiresNow) => w !in world.jobs && (expiresNow ==> key in world.entries)
    case Expire(key) => key in world.entries
    case _ => step.w in world.jobs
  }

  function Drop(world: World, key: Key): World {
    world.(entries := world.entries - {key}, expired := world.expired + {key})
  }

  /** A worker that crashes neither completes nor releases its key. */
  function Apply(world: World, step: Step): World
    requires Possible(world, step)
  {
    match step
    case Arrive(w, key, fingerprint, expiresNow) =>
      if expiresNow then Drop(world, key).(jobs := world.jobs[w := Job(key, fingerprint)])
      else if OutcomeOf(world.entries, key, fingerprint).Proceed?
      then world.(entries := world.entries[key := Entry(fingerprint, None)], jobs := world.jobs[w := Job(key, fingerprint)])
      else world
    case Finish(w, response) =>
      var job := world.jobs[w];
      world.(entries := world.entries[job.key := Entry(job.fingerprint, Some(response))], jobs := world.jobs - {w},
             completions := world.completions + [Completion(job.key, job.fingerprint, response)])
    case Fail(w) => world.(entries := world.entries - {world.jobs[w].key}, jobs := world.jobs - {w})
    case Crash(w) => world.(jobs := world.jobs - {w})
    case Expire(key) => Drop(world, key)
  }

  /** world' is reached from world by these steps, each possible in its turn. */
  ghost predicate Reaches(world: World, steps: seq<Step>, world': World)
    decreases |steps|
  {
    if steps == [] then world' == world
    else
      var n := |steps| - 1;
      exists mid ::
        Reaches(world, steps[..n], mid) && Possible(mid, steps[n]) && world' == Apply(mid, steps[n])
  }

  // ----- the invariant -----

  predicate Holds(world: World, w: nat)
    requires w in world.jobs
  {
    var job := world.jobs[w];
    job.key in world.entries && world.entries[job.key] == Entry(job.fingerprint, None)
  }

  predicate Stored(world: World, c: Completion) {
    c.key in world.entries && world.entries[c.key] == Entry(c.fingerprint, Some(c.response))
  }

  predicate SameLiveKey(world: World, v: nat, w: nat)
    requires v in world.jobs && w in world.jobs
  {
    world.jobs[v].key !in world.expired && world.jobs[v].key == world.jobs[w].key
  }

  ghost predicate JobsOk(world: World) {
    && (forall w :: w in world.jobs && world.jobs[w].key !in world.expired ==> Holds(world, w))
    && (forall v, w :: v in world.jobs && w in world.jobs && SameLiveKey(world, v, w) ==> v == w)
  }

  ghost predicate CompletionsOk(world: World) {
    && (forall i :: 0 <= i < |world.completions| && world.completions[i].key !in world.expired ==>
          Stored(world, world.completions[i]))
    && (forall i, j :: 0 <= i < j < |world.completions| && world.completions[i].key !in world.expired ==>
          world.completions[i].key != world.completions[j].key)
    && (forall key :: key in world.entries && world.entries[key].response.Some? ==>
          Completion(key, world.entries[key].fingerprint, world.entries[key].response.value) in world.completions)
  }

  /** Everything is in order under the keys that never expired. */
  ghost predicate Inv(world: World) {
    JobsOk(world) && CompletionsOk(world)
  }

  lemma HoldsKeep(world: World, step: Step, w: nat)
    requires JobsOk(world) && Possible(world, step)
    requires w in Apply(world, step).jobs && Apply(world, step).jobs[w].key !in Apply(world, step).expired
    ensures Holds(Apply(world, step), w)
  {
    if w in world.jobs {
      assert Holds(world, w);
      if step.Finish? || step.Fail? {
        assert SameLiveKey(world, step.w, w) || world.jobs[step.w].key != world.jobs[w].key;
      }
    }
  }

  /** A newcomer is let in only under a key that nobody holds. */
  lemma HoldersKeep(world: World, step: Step, v: nat, w: nat)
    requires JobsOk(world) && Possible(world, step)
    requires v in Apply(world, step).jobs && w in Apply(world, step).jobs && SameLiveKey(Apply(world, step), v, w)
    ensures v == w
  {
    assert v in world.jobs && world.jobs[v].key !in world.expired ==> Holds(world, v);
    assert w in world.jobs && world.jobs[w].key !in world.expired ==> Holds(world, w);
    assert v in world.jobs && w in world.jobs ==> SameLiveKey(world, v, w);
  }

  lemma JobsKeep(world: World, step: Step)
    requires JobsOk(world) && Possible(world, step)
    ensures JobsOk(Apply(world, step))
  {
    var world' := Apply(world, step);
    forall w | w in world'.jobs && world'.jobs[w].key !in world'.expired ensures Holds(world', w) {
      HoldsKeep(world, step, w);
    }
    forall v, w | v in world'.jobs && w in world'.jobs && SameLiveKey(world', v, w) ensures v == w {
      HoldersKeep(world, step, v, w);
    }
  }

  lemma StoredKeep(world: World, step: Step, c: Completion)
    requires JobsOk(world) && Possible(world, step) && Stored(world, c) && c.key !in Apply(world, step).expired
    ensures Stored(Apply(world, step), c)
  {
    if step.Finish? || step.Fail? {
      assert world.jobs[step.w].key == c.key ==> Holds(world, step.w);
    }
  }

  lemma CompletionsKeep(world: World, step: Step)
    requires Inv(world) && Possible(world, step)
    ensures CompletionsOk(Apply(world, step)) && world.completions <= Apply(world, step).completions
  {
    var world' := Apply(world, step);
    forall i | 0 <= i < |world'.completions| && world'.completions[i].key !in world'.expired
      ensures Stored(world', world'.completions[i])
    {
      if i < |world.completions| {
        assert Stored(world, world.completions[i]);
        StoredKeep(world, step, world.completions[i]);
      }
    }
    if step.Finish? {
      NewestIsFirst(world, step);
    }
    AnswersKeep(world, step);
  }

  /** A worker can only complete a key that was not completed before. */
  lemma NewestIsFirst(world: World, step: Step)
    requires Inv(world) && Possible(world, step) && step.Finish?
    ensures forall i :: 0 <= i < |world.completions| && world.completions[i].key !in world.expired ==>
      world.completions[i].key != world.jobs[step.w].key
  {
    forall i | 0 <= i < |world.completions| && world.completions[i].key !in world.expired
      ensures world.completions[i].key != world.jobs[step.w].key
    {
      assert Stored(world, world.completions[i]);
      assert world.jobs[step.w].key !in world.expired ==> Holds(world, step.w);
    }
  }

  lemma AnswersKeep(world: World, step: Step)
    requires CompletionsOk(world) && Possible(world, step)
    ensures var world' := Apply(world, step);
      forall key :: key in world'.entries && world'.entries[key].response.Some? ==>
        Completion(key, world'.entries[key].fingerprint, world'.entries[key].response.value) in world'.completions
  {
    var world' := Apply(world, step);
    forall key | key in world'.entries && world'.entries[key].response.Some?
      ensures Completion(key, world'.entries[key].fingerprint, world'.entries[key].response.value) in world'.completions
    {
      if step.Finish? && key == world.jobs[step.w].key {
        assert world'.completions[|world.completions|].key == key;
      } else {
        assert world'.entries[key] == world.entries[key];
      }
    }
  }

  lemma {:induction false} RunKeeps(world: World, steps: seq<Step>, world': World)
    requires Inv(world) && Reaches(world, steps, world')
    ensures Inv(world') && world.completions <= world'.completions && world.expired <= world'.expired
  {
    hide JobsOk, CompletionsOk;
    if steps != [] {
      var n := |steps| - 1;
      var mid :| Reaches(world, steps[..n], mid) && Possible(mid, steps[n]) && world' == Apply(mid, steps[n]);
      RunKeeps(world, steps[..n], mid);
      JobsKeep(mid, steps[n]);
      CompletionsKeep(mid, steps[n]);
    }
  }

  // ----- what holds after any interleaving, under a key that never expired -----

  /** At most one worker is processing a key, and meanwhile every other request
      under that key is turned away. */
  lemma OneWorkerPerKey(steps: seq<Step>, world: World, v: nat, w: nat, fingerprint: string)
    requires Reaches(START, steps, world) && v in world.jobs && w in world.jobs
    requires world.jobs[v].key == world.jobs[w].key && world.jobs[w].key !in world.expired
    ensures v == w
    ensures OutcomeOf(world.entries, world.jobs[w].key, fingerprint) ==
      if fingerprint == world.jobs[w].fingerprint then InProgress else KeyConflict
  {
    RunKeeps(START, steps, world);
    assert SameLiveKey(world, v, w) && Holds(world, w);
  }

  /** The work under a key is completed at most once, and from then on, whatever
      any worker does, the same request gets exactly that response and any other
      request under the key is refused. */
  lemma CompletionIsFinal(before: seq<Step>, mid: World, after: seq<Step>, world: World, c: Completion, fingerprint: string)
    requires Reaches(START, before, mid) && c in mid.completions && Reaches(mid, after, world)
    requires c.key !in world.expired
    ensures OutcomeOf(world.entries, c.key, fingerprint) ==
      if fingerprint == c.fingerprint then Replay(c.response) else KeyConflict
    ensures forall w :: w in world.jobs ==> world.jobs[w].key != c.key
    ensures forall d :: d in world.completions && d.key == c.key ==> d == c
  {
    RunKeeps(START, before, mid);
    RunKeeps(mid, after, world);
    var i :| 0 <= i < |mid.completions| && mid.completions[i] == c;
    assert world.completions[i] == c && Stored(world, c);
    forall w | w in world.jobs ensures world.jobs[w].key != c.key {
      assert world.jobs[w].key !in world.expired ==> Holds(world, w);
    }
  }

  /** A response is replayed only if some worker completed that very request,
      whether or not keys expire. */
  lemma ReplaysAreReal(steps: seq<Step>, world: World, key: Key, fingerprint: string)
    requires Reaches(START, steps, world)
    ensures OutcomeOf(world.entries, key, fingerprint).Replay? ==>
      Completion(key, fingerprint, OutcomeOf(world.entries, key, fingerprint).response) in world.completions
  {
    RunKeeps(START, steps, world);
  }

  /** A failed request gives its key back: the next request under it proceeds. */
  lemma FailureFreesKey(steps: seq<Step>, world: World, w: nat, fingerprint: string)
    requires Reaches(START, steps, world) && w in world.jobs
    ensures OutcomeOf(Apply(world, Fail(w)).entries, world.jobs[w].key, fingerprint) == Proceed
  {
  }

  lemma ThenStep(steps: seq<Step>, world: World, step: Step) returns (steps': seq<Step>, world': World)
    requires Reaches(START, steps, world) && Possible(world, step)
    ensures world' == Apply(world, step) && Reaches(START, steps', world')
  {
    steps', world' := steps + [step], Apply(world, step);
    assert steps'[..|steps|] == steps;
  }

  /** The premise is needed: if a key expires while it is being worked under, a
      second worker starts, and the work is completed twice. */
  lemma ExpiryAllowsTwice(key: Key, fingerprint: string, r: Response) returns (steps: seq<Step>, world: World)
    ensures Reaches(START, steps, world) && key in world.expired
    ensures world.completions == [Completion(key, fingerprint, r), Completion(key, fingerprint, r)]
  {
    hide Reaches;
    NoSteps();
    steps, world := ThenStep([], START, Arrive(0, key, fingerprint, false));
    steps, world := ThenStep(steps, world, Expire(key));
    steps, world := ThenStep(steps, world, Arrive(1, key, fingerprint, false));
    steps, world := ThenStep(steps, world, Finish(0, r));
    steps, world := ThenStep(steps, world, Finish(1, r));
  }

  lemma NoSteps()
    ensures Reaches(START, [], START)
  {
  }
}
