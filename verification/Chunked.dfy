// apps/worker/src/chunked.ts and the pool of apps/worker/src/object-sweep.ts:72-88: batches of an id
// list, run by lanes that share one cursor.
module Chunked {
  import opened Wrappers
  import opened Sequences

  const QUERY_ID_CHUNK: nat := 5000
  const QUERY_CONCURRENCY: nat := 6

  // ----- chunkIds -----

  // Nothing is lost, repeated or reordered; every chunk but the last is full, and the last is not empty.
  ghost predicate IsChunked<T>(items: seq<T>, size: nat, chunks: seq<seq<T>>) {
    && Flat(chunks) == items
    && (forall k :: 0 <= k < |chunks| ==> 0 < |chunks[k]| <= size)
    && (forall k :: 0 <= k < |chunks| - 1 ==> |chunks[k]| == size)
  }

  method ChunkIds<T>(items: seq<T>, size: nat) returns (chunks: seq<seq<T>>)
    requires size > 0
    ensures IsChunked(items, size, chunks)
  {
    chunks := [];
    var i := 0;
    while i < |items|
      invariant IsChunked(items[..Min(i, |items|)], size, chunks)
      invariant i < |items| ==> forall k :: 0 <= k < |chunks| ==> |chunks[k]| == size
      decreases |items| - i
    {
      var end := Min(i + size, |items|);
      FlatSnoc(chunks, items[i..end]);
      assert items[..end] == items[..i] + items[i..end];
      chunks := chunks + [items[i..end]];
      i := i + size;
    }
    assert items[..|items|] == items;
  }

  // The properties fix the chunks.
  lemma {:induction false} ChunksUnique<T>(items: seq<T>, size: nat, a: seq<seq<T>>, b: seq<seq<T>>)
    requires IsChunked(items, size, a) && IsChunked(items, size, b)
    ensures a == b
    decreases |a|
  {
    if a == [] || b == [] {
      assert a == b;
    } else {
      FirstChunk(items, size, a);
      FirstChunk(items, size, b);
      ChunksUnique(items[|a[0]|..], size, a[1..], b[1..]);
      assert a == [a[0]] + a[1..] && b == [b[0]] + b[1..];
    }
  }

  lemma FirstChunk<T>(items: seq<T>, size: nat, a: seq<seq<T>>)
    requires IsChunked(items, size, a) && a != []
    ensures |a[0]| == Min(size, |items|) && a[0] == items[..|a[0]|]
    ensures IsChunked(items[|a[0]|..], size, a[1..])
  {
    assert items == a[0] + Flat(a[1..]);
    if |a| == 1 {
      assert Flat(a[1..]) == [];
    }
  }

  // ----- lanes over a shared cursor -----

  datatype Lane = Ready | Running(batch: nat) | Returned | Rejected(batch: nat)

  // `started` lists the batches given to `run`, in the order in which they were.
  datatype Pool<R> = Pool(next: nat, started: seq<nat>, out: seq<Option<seq<R>>>, lanes: seq<Lane>)

  // A lane takes the next index and either starts its batch or returns, without a pause in between; a
  // running batch answers or fails.
  datatype Step = Take(lane: nat) | Answer(lane: nat) | Fail(lane: nat)

  function InitialPool<R>(batches: nat, lanes: nat): Pool<R> {
    Pool(0, [], seq(batches, _ => None), seq(lanes, _ => Ready))
  }

  predicate Enabled<R>(p: Pool<R>, s: Step) {
    && s.lane < |p.lanes|
    && match s
       case Take(l) => p.lanes[l].Ready?
       case Answer(l) => p.lanes[l].Running? && p.lanes[l].batch < |p.out|
       case Fail(l) => p.lanes[l].Running?
  }

  // `answers[i]` is what `run` resolves to for batch i.
  function Apply<R>(p: Pool<R>, answers: seq<seq<R>>, s: Step): Pool<R>
    requires Enabled(p, s) && |answers| == |p.out|
  {
    match s
    case Take(l) =>
      var i := p.next;
      if i < |p.out| then
        p.(next := i + 1, started := p.started + [i], lanes := p.lanes[l := Running(i)])
      else
        p.(next := i + 1, lanes := p.lanes[l := Returned])
    case Answer(l) =>
      var i := p.lanes[l].batch;
      p.(out := p.out[i := Some(answers[i])], lanes := p.lanes[l := Ready])
    case Fail(l) => p.(lanes := p.lanes[l := Rejected(p.lanes[l].batch)])
  }

  predicate On(lane: Lane, batch: nat) {
    lane == Running(batch) || lane == Rejected(batch)
  }

  ghost predicate Inv<R>(p: Pool<R>, answers: seq<seq<R>>, lanes: nat) {
    && |p.out| == |answers| && |p.lanes| == lanes
    && p.started == seq(Min(p.next, |p.out|), i => i)
    && (forall l :: 0 <= l < |p.lanes| && (p.lanes[l].Running? || p.lanes[l].Rejected?) ==>
          p.lanes[l].batch < |p.out| && p.lanes[l].batch < p.next && p.out[p.lanes[l].batch].None?)
    && (forall l, m :: 0 <= l < m < |p.lanes| && !p.lanes[l].Ready? && !p.lanes[l].Returned? ==> !On(p.lanes[m], p.lanes[l].batch))
    && (forall l :: 0 <= l < |p.lanes| && p.lanes[l].Returned? ==> p.next > |p.out|)
    && (forall i :: 0 <= i < |p.out| ==>
          if p.out[i].Some? then i < p.next && p.out[i] == Some(answers[i])
          else i < p.next ==> exists l :: 0 <= l < |p.lanes| && On(p.lanes[l], i))
  }

  lemma StartKeeps<R>(answers: seq<seq<R>>, lanes: nat)
    ensures Inv(InitialPool(|answers|, lanes), answers, lanes)
  {
  }

  lemma TakeKeeps<R>(p: Pool<R>, answers: seq<seq<R>>, lanes: nat, l: nat)
    requires Inv(p, answers, lanes) && Enabled(p, Take(l))
    ensures Inv(Apply(p, answers, Take(l)), answers, lanes)
  {
    var q := Apply(p, answers, Take(l));
    assert forall m :: 0 <= m < |p.lanes| && m != l ==> q.lanes[m] == p.lanes[m];
    forall i | 0 <= i < |q.out| && q.out[i].None? && i < q.next
      ensures exists m :: 0 <= m < |q.lanes| && On(q.lanes[m], i)
    {
      if i == p.next {
        assert On(q.lanes[l], i);
      } else {
        var m :| 0 <= m < |p.lanes| && On(p.lanes[m], i);
        assert On(q.lanes[m], i);
      }
    }
  }

  lemma AnswerKeeps<R>(p: Pool<R>, answers: seq<seq<R>>, lanes: nat, l: nat)
    requires Inv(p, answers, lanes) && Enabled(p, Answer(l))
    ensures Inv(Apply(p, answers, Answer(l)), answers, lanes)
  {
    var q := Apply(p, answers, Answer(l));
    var b := p.lanes[l].batch;
    assert forall m :: 0 <= m < |p.lanes| && m != l ==> q.lanes[m] == p.lanes[m] && !On(p.lanes[m], b);
    forall i | 0 <= i < |q.out| && q.out[i].None? && i < q.next
      ensures exists m :: 0 <= m < |q.lanes| && On(q.lanes[m], i)
    {
      var m :| 0 <= m < |p.lanes| && On(p.lanes[m], i);
      assert On(q.lanes[m], i);
    }
  }

  lemma FailKeeps<R>(p: Pool<R>, answers: seq<seq<R>>, lanes: nat, l: nat)
    requires Inv(p, answers, lanes) && Enabled(p, Fail(l))
    ensures Inv(Apply(p, answers, Fail(l)), answers, lanes)
  {
    var q := Apply(p, answers, Fail(l));
    forall i | 0 <= i < |q.out| && q.out[i].None? && i < q.next
      ensures exists m :: 0 <= m < |q.lanes| && On(q.lanes[m], i)
    {
      var m :| 0 <= m < |p.lanes| && On(p.lanes[m], i);
      assert On(q.lanes[m], i);
    }
  }

  lemma StepKeeps<R>(p: Pool<R>, answers: seq<seq<R>>, lanes: nat, s: Step)
    requires Inv(p, answers, lanes) && Enabled(p, s)
    ensures Inv(Apply(p, answers, s), answers, lanes)
  {
    match s
    case Take(l) => TakeKeeps(p, answers, lanes, l);
    case Answer(l) => AnswerKeeps(p, answers, lanes, l);
    case Fail(l) => FailKeeps(p, answers, lanes, l);
  }

  predicate Possible<R>(p: Pool<R>, answers: seq<seq<R>>, steps: seq<Step>)
    requires |answers| == |p.out|
    decreases |steps|
  {
    steps == [] || (Enabled(p, steps[0]) && Possible(Apply(p, answers, steps[0]), answers, steps[1..]))
  }

  function Run<R>(p: Pool<R>, answers: seq<seq<R>>, steps: seq<Step>): (q: Pool<R>)
    requires |answers| == |p.out| && Possible(p, answers, steps)
    ensures |q.out| == |p.out|
    decreases |steps|
  {
    if steps == [] then p else Run(Apply(p, answers, steps[0]), answers, steps[1..])
  }

  lemma {:induction false} RunKeeps<R>(p: Pool<R>, answers: seq<seq<R>>, lanes: nat, steps: seq<Step>)
    requires Inv(p, answers, lanes) && Possible(p, answers, steps)
    ensures Inv(Run(p, answers, steps), answers, lanes)
    decreases |steps|
  {
    if steps != [] {
      StepKeeps(p, answers, lanes, steps[0]);
      RunKeeps(Apply(p, answers, steps[0]), answers, lanes, steps[1..]);
    }
  }

  // ----- no run goes on forever -----

  function LaneWork(lane: Lane): nat {
    match lane
    case Ready => 1
    case Running(_) => 2
    case _ => 0
  }

  function LanesWork(lanes: seq<Lane>): nat {
    if lanes == [] then 0 else LaneWork(lanes[0]) + LanesWork(lanes[1..])
  }

  function Work<R>(p: Pool<R>): nat {
    2 * Max(0, |p.out| - p.next) + LanesWork(p.lanes)
  }

  lemma {:induction false} LanesWorkUpdate(lanes: seq<Lane>, l: nat, lane: Lane)
    requires l < |lanes|
    ensures LanesWork(lanes[l := lane]) == LanesWork(lanes) - LaneWork(lanes[l]) + LaneWork(lane)
  {
    if l == 0 {
      assert lanes[0 := lane][1..] == lanes[1..];
    } else {
      LanesWorkUpdate(lanes[1..], l - 1, lane);
      assert lanes[l := lane][1..] == lanes[1..][l - 1 := lane];
    }
  }

  lemma StepWorks<R>(p: Pool<R>, answers: seq<seq<R>>, s: Step)
    requires |answers| == |p.out| && Enabled(p, s)
    ensures Work(Apply(p, answers, s)) < Work(p)
  {
    LanesWorkUpdate(p.lanes, s.lane, Apply(p, answers, s).lanes[s.lane]);
  }

  lemma {:induction false} RunsEnd<R>(p: Pool<R>, answers: seq<seq<R>>, steps: seq<Step>)
    requires |answers| == |p.out| && Possible(p, answers, steps)
    ensures |steps| <= Work(p)
    decreases |steps|
  {
    if steps != [] {
      StepWorks(p, answers, steps[0]);
      RunsEnd(Apply(p, answers, steps[0]), answers, steps[1..]);
    }
  }

  // ----- what a run has done -----

  predicate Finished<R>(p: Pool<R>) {
    forall l :: 0 <= l < |p.lanes| ==> p.lanes[l].Returned?
  }

  function InFlight<R>(p: Pool<R>): set<nat> {
    set l | 0 <= l < |p.lanes| && p.lanes[l].Running? :: p.lanes[l].batch
  }

  function Results<R>(out: seq<Option<seq<R>>>): seq<seq<R>> {
    if out == [] then [] else [if out[0].Some? then out[0].value else []] + Results(out[1..])
  }

  lemma {:induction false} ResultsAre<R>(out: seq<Option<seq<R>>>, answers: seq<seq<R>>)
    requires |out| == |answers| && forall i :: 0 <= i < |out| ==> out[i] == Some(answers[i])
    ensures Results(out) == answers
  {
    if out != [] {
      ResultsAre(out[1..], answers[1..]);
      assert answers == [answers[0]] + answers[1..];
    }
  }

  lemma {:induction false} FewRunning(lanes: seq<Lane>)
    ensures |set l | 0 <= l < |lanes| && lanes[l].Running? :: lanes[l].batch| <= |lanes|
  {
    if lanes != [] {
      var n := |lanes| - 1;
      var rest := lanes[..n];
      FewRunning(rest);
      var a := set l | 0 <= l < |lanes| && lanes[l].Running? :: lanes[l].batch;
      var b := set l | 0 <= l < |rest| && rest[l].Running? :: rest[l].batch;
      if lanes[n].Running? {
        assert a == b + {lanes[n].batch};
      } else {
        assert a == b;
      }
    }
  }

  // At any moment of any run: the batches given to `run` are the first ones, each once and in order,
  // and no more than `lanes` are in flight.
  lemma EachBatchOnce<R>(answers: seq<seq<R>>, lanes: nat, steps: seq<Step>)
    requires Possible(InitialPool(|answers|, lanes), answers, steps)
    ensures var p := Run(InitialPool(|answers|, lanes), answers, steps);
            && p.started == seq(Min(p.next, |answers|), i => i)
            && |InFlight(p)| <= lanes
  {
    StartKeeps(answers, lanes);
    RunKeeps(InitialPool(|answers|, lanes), answers, lanes, steps);
    FewRunning(Run(InitialPool(|answers|, lanes), answers, steps).lanes);
  }

  // Once every lane has returned, every batch has run once and the rows are those of the batches in
  // batch order, whatever order they completed in.
  lemma FinishedInOrder<R>(answers: seq<seq<R>>, lanes: nat, steps: seq<Step>)
    requires Possible(InitialPool(|answers|, lanes), answers, steps) && (lanes > 0 || answers == [])
    requires Finished(Run(InitialPool(|answers|, lanes), answers, steps))
    ensures var p := Run(InitialPool(|answers|, lanes), answers, steps);
            p.started == seq(|answers|, i => i) && Flat(Results(p.out)) == Flat(answers)
  {
    var p := Run(InitialPool(|answers|, lanes), answers, steps);
    StartKeeps(answers, lanes);
    RunKeeps(InitialPool(|answers|, lanes), answers, lanes, steps);
    if lanes > 0 { assert p.lanes[0].Returned?; }
    forall i | 0 <= i < |p.out|
      ensures p.out[i] == Some(answers[i])
    {
    }
    ResultsAre(p.out, answers);
  }

  // ----- queryInChunks -----

  function LaneCount(concurrency: int, batches: nat): (n: nat)
    ensures n >= 1 && (n <= concurrency || n == 1) && (n <= batches || n == 1)
  {
    Max(1, Min(concurrency, batches))
  }

  // `run` maps over ids: asking for a list is asking for its pieces.
  ghost predicate Additive<T(!new), R>(run: seq<T> -> seq<R>) {
    run([]) == [] && forall a, b :: run(a + b) == run(a) + run(b)
  }

  function Answers<T, R>(batches: seq<seq<T>>, run: seq<T> -> seq<R>): (r: seq<seq<R>>)
    ensures |r| == |batches| && forall i :: 0 <= i < |r| ==> r[i] == run(batches[i])
  {
    if batches == [] then [] else [run(batches[0])] + Answers(batches[1..], run)
  }

  lemma {:induction false} FlatRun<T(!new), R>(batches: seq<seq<T>>, run: seq<T> -> seq<R>)
    requires Additive(run)
    ensures Flat(Answers(batches, run)) == run(Flat(batches))
  {
    if batches != [] {
      FlatRun(batches[1..], run);
      assert Answers(batches, run)[1..] == Answers(batches[1..], run);
      assert run(batches[0] + Flat(batches[1..])) == run(batches[0]) + run(Flat(batches[1..]));
    }
  }

  // Chunking is invisible: under every interleaving of the lanes, a query that answers id by id gives
  // the rows it would give for the whole list, in the list's order.
  lemma ChunkedQueryIsTheQuery<T(!new), R>(
      ids: seq<T>, run: seq<T> -> seq<R>, size: nat, concurrency: int, batches: seq<seq<T>>, steps: seq<Step>)
    requires Additive(run) && IsChunked(ids, size, batches)
    requires var p := InitialPool(|batches|, LaneCount(concurrency, |batches|));
             Possible(p, Answers(batches, run), steps) && Finished(Run(p, Answers(batches, run), steps))
    ensures var p := InitialPool(|batches|, LaneCount(concurrency, |batches|));
            Flat(Results(Run(p, Answers(batches, run), steps).out)) == run(ids)
  {
    FinishedInOrder(Answers(batches, run), LaneCount(concurrency, |batches|), steps);
    FlatRun(batches, run);
  }

  // ----- the pool as an object: the shared cursor and the result slots -----

  class SharedPool<R> {
    var next: nat
    ghost var started: seq<nat>
    var out: seq<Option<seq<R>>>
    var lanes: seq<Lane>

    ghost function State(): Pool<R>
      reads this
    {
      Pool(next, started, out, lanes)
    }

    constructor (batches: nat, laneCount: nat)
      ensures State() == InitialPool(batches, laneCount)
    {
      next, started := 0, [];
      out, lanes := seq(batches, _ => None), seq(laneCount, _ => Ready);
    }

    // const i = next++; batches[i] === undefined ? return : run(batches[i])
    method TakeNext(lane: nat, ghost answers: seq<seq<R>>) returns (batch: Option<nat>)
      requires Inv(State(), answers, |lanes|) && Enabled(State(), Take(lane))
      modifies this
      ensures State() == Apply(old(State()), answers, Take(lane)) && Inv(State(), answers, |lanes|)
      ensures batch == if old(next) < |out| then Some(old(next)) else None
    {
      StepKeeps(State(), answers, |lanes|, Take(lane));
      var i := next;
      next := next + 1;
      if i < |out| {
        started := started + [i];
        lanes := lanes[lane := Running(i)];
        return Some(i);
      }
      lanes := lanes[lane := Returned];
      return None;
    }

    // out[i] = await run(batch)
    method Deliver(lane: nat, rows: seq<R>, ghost answers: seq<seq<R>>)
      requires Inv(State(), answers, |lanes|) && Enabled(State(), Answer(lane)) && rows == answers[lanes[lane].batch]
      modifies this
      ensures State() == Apply(old(State()), answers, Answer(lane)) && Inv(State(), answers, |lanes|)
    {
      StepKeeps(State(), answers, |lanes|, Answer(lane));
      out := out[lanes[lane].batch := Some(rows)];
      lanes := lanes[lane := Ready];
    }
  }
}
