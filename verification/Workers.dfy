/**
 * The workers of a parallel scan: they draw shards from a shared cursor and deliver what is in
 * them. Whatever the interleaving, nothing is lost and nothing comes twice, and every fair run ends.
 */
module Workers {
  import opened Records

  /** A record of one of the sources. */
  datatype Item = Item(src: nat, rec: Rec)

  /** A worker waits for a shard, delivers what is left of one, or has found none left. */
  datatype Worker = Idle | Busy(left: seq<Item>) | Gone

  /** The shared cursor, the workers, and what the callback has been given so far. */
  datatype Scan = Scan(next: nat, workers: seq<Worker>, delivered: multiset<Item>)

  datatype Action = Draw(w: nat) | Deliver(w: nat)

  /** One action of one worker; outs is what each shard holds. An action that is not enabled does nothing. */
  ghost function Act(outs: seq<seq<Item>>, s: Scan, a: Action): Scan {
    if a.w >= |s.workers| then s
    else
      var worker := s.workers[a.w];
      if a.Draw? && (worker == Idle || worker == Busy([])) then
        var drawn := if s.next < |outs| then Busy(outs[s.next]) else Gone;
        Scan(s.next + 1, s.workers[a.w := drawn], s.delivered)
      else if a.Deliver? && worker.Busy? && worker.left != [] then
        Scan(s.next, s.workers[a.w := Busy(worker.left[1..])], s.delivered + multiset{worker.left[0]})
      else s
  }

  ghost function Run(outs: seq<seq<Item>>, s: Scan, actions: seq<Action>): Scan
    decreases |actions|
  {
    if actions == [] then s else Run(outs, Act(outs, s, actions[0]), actions[1..])
  }

  ghost function Start(workers: nat): Scan {
    Scan(0, seq(workers, _ => Idle), multiset{})
  }

  /** Everything in the shards from i on. */
  ghost function Undrawn(outs: seq<seq<Item>>, i: nat): multiset<Item>
    decreases |outs| - i
  {
    if i >= |outs| then multiset{} else multiset(outs[i]) + Undrawn(outs, i + 1)
  }

  ghost function InHand(workers: seq<Worker>): multiset<Item> {
    if workers == [] then multiset{} else Held(workers[0]) + InHand(workers[1..])
  }

  ghost function Held(worker: Worker): multiset<Item> {
    if worker.Busy? then multiset(worker.left) else multiset{}
  }

  lemma Swap(a: multiset<Item>, b: multiset<Item>, c: multiset<Item>)
    ensures a + (b + c) == b + (a + c)
  {
  }

  lemma HandsBehind(workers: seq<Worker>, w: nat, worker: Worker)
    requires 0 < w < |workers|
    ensures InHand(workers[w := worker]) == Held(workers[0]) + InHand(workers[1..][w - 1 := worker])
  {
    assert workers[w := worker][1..] == workers[1..][w - 1 := worker];
  }

  /** Changing what one worker holds leaves a remainder as it was. */
  lemma {:induction false} HandChange(workers: seq<Worker>, w: nat, worker: Worker) returns (others: multiset<Item>)
    requires w < |workers|
    ensures InHand(workers) == Held(workers[w]) + others
    ensures InHand(workers[w := worker]) == Held(worker) + others
  {
    if w == 0 {
      others := InHand(workers[1..]);
      assert workers[0 := worker][1..] == workers[1..];
    } else {
      var first, tail := Held(workers[0]), workers[1..];
      var rest := HandChange(tail, w - 1, worker);
      others := first + rest;
      Swap(first, Held(tail[w - 1]), rest);
      Swap(first, Held(worker), rest);
      HandsBehind(workers, w, worker);
    }
  }

  ghost function Total(outs: seq<seq<Item>>, s: Scan): multiset<Item> {
    s.delivered + InHand(s.workers) + Undrawn(outs, s.next)
  }

  /** What every reachable state keeps: nothing is lost and nothing is doubled. */
  ghost predicate Conserved(outs: seq<seq<Item>>, s: Scan) {
    && Total(outs, s) == Undrawn(outs, 0)
    && (forall w | 0 <= w < |s.workers| :: s.workers[w] == Gone ==> s.next >= |outs|)
  }

  lemma ActConserves(outs: seq<seq<Item>>, s: Scan, a: Action)
    requires Conserved(outs, s)
    ensures Conserved(outs, Act(outs, s, a))
  {
    assert Total(outs, Act(outs, s, a)) == Total(outs, s) by {
      ActBalances(outs, s, a);
    }
  }

  lemma ActBalances(outs: seq<seq<Item>>, s: Scan, a: Action)
    ensures Total(outs, Act(outs, s, a)) == Total(outs, s)
  {
    if a.w < |s.workers| {
      var worker := s.workers[a.w];
      if a.Draw? && (worker == Idle || worker == Busy([])) {
        var drawn := if s.next < |outs| then Busy(outs[s.next]) else Gone;
        DrawBalances(s.delivered, s.workers, a.w, drawn, Undrawn(outs, s.next), Undrawn(outs, s.next + 1));
      } else if a.Deliver? && worker.Busy? && worker.left != [] {
        DeliverBalances(s.delivered, s.workers, a.w, Undrawn(outs, s.next));
      }
    }
  }

  lemma DrawBalances(d: multiset<Item>, workers: seq<Worker>, w: nat, worker: Worker, u: multiset<Item>, left: multiset<Item>)
    requires w < |workers| && Held(workers[w]) == multiset{} && u == Held(worker) + left
    ensures d + InHand(workers) + u == d + InHand(workers[w := worker]) + left
  {
    var others := HandChange(workers, w, worker);
    assert multiset{} + others == others;
    var h := Held(worker);
    assert (d + others) + (h + left) == (d + (h + others)) + left;
  }

  lemma HeldStep(left: seq<Item>)
    requires left != []
    ensures multiset(left) == multiset{left[0]} + multiset(left[1..])
  {
    assert left == [left[0]] + left[1..];
  }

  lemma DeliverBalances(d: multiset<Item>, workers: seq<Worker>, w: nat, u: multiset<Item>)
    requires w < |workers| && workers[w].Busy? && workers[w].left != []
    ensures d + InHand(workers) + u ==
      (d + multiset{workers[w].left[0]}) + InHand(workers[w := Busy(workers[w].left[1..])]) + u
  {
    var left := workers[w].left;
    var others := HandChange(workers, w, Busy(left[1..]));
    var item, rest := multiset{left[0]}, multiset(left[1..]);
    HeldStep(left);
    assert InHand(workers) == (item + rest) + others;
    assert InHand(workers[w := Busy(left[1..])]) == rest + others;
    HandOver(d, item, rest, others);
  }

  lemma HandOver(d: multiset<Item>, item: multiset<Item>, rest: multiset<Item>, others: multiset<Item>)
    ensures d + ((item + rest) + others) == (d + item) + (rest + others)
  {
  }

  lemma {:induction false} RunConserves(outs: seq<seq<Item>>, s: Scan, actions: seq<Action>)
    requires Conserved(outs, s)
    ensures Conserved(outs, Run(outs, s, actions))
    decreases |actions|
  {
    if actions != [] {
      ActConserves(outs, s, actions[0]);
      RunConserves(outs, Act(outs, s, actions[0]), actions[1..]);
    }
  }

  lemma {:induction false} StartHoldsNothing(n: nat)
    ensures InHand(Start(n).workers) == multiset{}
  {
    if n > 0 {
      StartHoldsNothing(n - 1);
      assert Start(n).workers[1..] == Start(n - 1).workers;
    }
  }

  lemma {:induction false} AllGoneHoldNothing(workers: seq<Worker>)
    requires forall w | 0 <= w < |workers| :: workers[w] == Gone
    ensures InHand(workers) == multiset{}
  {
    if workers != [] {
      AllGoneHoldNothing(workers[1..]);
    }
  }

  /** Every worker has found the shards exhausted. */
  ghost predicate AllGone(s: Scan) { forall w | 0 <= w < |s.workers| :: s.workers[w] == Gone }

  lemma ActKeepsWorkers(outs: seq<seq<Item>>, s: Scan, a: Action)
    ensures |Act(outs, s, a).workers| == |s.workers|
  {
  }

  lemma {:induction false} RunKeepsWorkers(outs: seq<seq<Item>>, s: Scan, actions: seq<Action>)
    ensures |Run(outs, s, actions).workers| == |s.workers|
    decreases |actions|
  {
    if actions != [] {
      ActKeepsWorkers(outs, s, actions[0]);
      RunKeepsWorkers(outs, Act(outs, s, actions[0]), actions[1..]);
    }
  }

  /** Every interleaving delivers, once all workers have stopped, exactly what the shards hold. */
  lemma EveryRunDeliversAll(outs: seq<seq<Item>>, workers: nat, actions: seq<Action>)
    requires workers > 0 && AllGone(Run(outs, Start(workers), actions))
    ensures Run(outs, Start(workers), actions).delivered == Undrawn(outs, 0)
  {
    StartHoldsNothing(workers);
    RunConserves(outs, Start(workers), actions);
    RunKeepsWorkers(outs, Start(workers), actions);
    var s := Run(outs, Start(workers), actions);
    assert s.workers[0] == Gone;
    AllGoneHoldNothing(s.workers);
  }

  /** At every moment of every interleaving, nothing has been delivered that the shards do not hold. */
  lemma NoRunInvents(outs: seq<seq<Item>>, workers: nat, actions: seq<Action>)
    ensures Run(outs, Start(workers), actions).delivered <= Undrawn(outs, 0)
  {
    StartHoldsNothing(workers);
    RunConserves(outs, Start(workers), actions);
  }

  // ----- Every fair run ends -----

  /** The actions it takes to draw and deliver the shards from i on. */
  ghost function WorkAhead(outs: seq<seq<Item>>, i: nat): nat
    decreases |outs| - i
  {
    if i >= |outs| then 0 else |outs[i]| + 1 + WorkAhead(outs, i + 1)
  }

  ghost function WorkOf(worker: Worker): nat {
    match worker
    case Idle => 1
    case Busy(left) => |left| + 1
    case Gone => 0
  }

  ghost function WorkInHand(workers: seq<Worker>): nat {
    if workers == [] then 0 else WorkOf(workers[0]) + WorkInHand(workers[1..])
  }

  /** How many actions will still change something. */
  ghost function Work(outs: seq<seq<Item>>, s: Scan): nat { WorkAhead(outs, s.next) + WorkInHand(s.workers) }

  lemma {:induction false} WorkChange(workers: seq<Worker>, w: nat, worker: Worker)
    requires w < |workers|
    ensures WorkInHand(workers[w := worker]) + WorkOf(workers[w]) == WorkInHand(workers) + WorkOf(worker)
  {
    if w == 0 {
      assert workers[0 := worker][1..] == workers[1..];
    } else {
      WorkChange(workers[1..], w - 1, worker);
      assert workers[w := worker][1..] == workers[1..][w - 1 := worker];
    }
  }

  /** An action does nothing, or leaves one less to do. */
  lemma ActWorks(outs: seq<seq<Item>>, s: Scan, a: Action)
    ensures Act(outs, s, a) == s || Work(outs, Act(outs, s, a)) == Work(outs, s) - 1
  {
    var t := Act(outs, s, a);
    if a.w < |s.workers| {
      WorkChange(s.workers, a.w, t.workers[a.w]);
      assert t == s || t.workers == s.workers[a.w := t.workers[a.w]];
    }
  }

  lemma {:induction false} RunWorks(outs: seq<seq<Item>>, s: Scan, actions: seq<Action>)
    ensures Work(outs, Run(outs, s, actions)) <= Work(outs, s)
    decreases |actions|
  {
    if actions != [] {
      ActWorks(outs, s, actions[0]);
      RunWorks(outs, Act(outs, s, actions[0]), actions[1..]);
    }
  }

  ghost predicate IsEnabled(outs: seq<seq<Item>>, s: Scan, a: Action) { Act(outs, s, a) != s }

  /** A worker that has not stopped can draw or deliver. */
  lemma CanAct(outs: seq<seq<Item>>, s: Scan, w: nat)
    requires w < |s.workers| && s.workers[w] != Gone
    ensures IsEnabled(outs, s, Draw(w)) || IsEnabled(outs, s, Deliver(w))
  {
    if s.workers[w].Busy? && s.workers[w].left != [] {
      assert |s.workers[w].left[1..]| < |s.workers[w].left|;
      assert Act(outs, s, Deliver(w)).workers[w] != s.workers[w];
    } else {
      assert Act(outs, s, Draw(w)).next == s.next + 1;
    }
  }

  /** A run in which an enabled action occurs gets something done. */
  lemma {:induction false} RunGetsOn(outs: seq<seq<Item>>, s: Scan, actions: seq<Action>, a: Action)
    requires a in actions && IsEnabled(outs, s, a)
    ensures Work(outs, Run(outs, s, actions)) < Work(outs, s)
    decreases |actions|
  {
    var t := Act(outs, s, actions[0]);
    ActWorks(outs, s, actions[0]);
    if t != s {
      RunWorks(outs, t, actions[1..]);
    } else {
      assert a in actions[1..];
      RunGetsOn(outs, s, actions[1..], a);
    }
  }

  /** A round gives every worker the chance to draw and to deliver, in any order. */
  ghost predicate IsRound(actions: seq<Action>, workers: nat) {
    forall w | 0 <= w < workers :: Draw(w) in actions && Deliver(w) in actions
  }

  /** A run that is fair for n rounds. */
  ghost predicate HasRounds(actions: seq<Action>, workers: nat, n: nat)
    decreases n
  {
    n > 0 ==> exists k | 0 <= k <= |actions| :: IsRound(actions[..k], workers) && HasRounds(actions[k..], workers, n - 1)
  }

  lemma {:induction false} RunSplits(outs: seq<seq<Item>>, s: Scan, a: seq<Action>, b: seq<Action>)
    ensures Run(outs, s, a + b) == Run(outs, Run(outs, s, a), b)
    decreases |a|
  {
    if a == [] {
      assert a + b == b;
    } else {
      assert (a + b)[1..] == a[1..] + b;
      RunSplits(outs, Act(outs, s, a[0]), a[1..], b);
    }
  }

  lemma {:induction false} GoneStay(outs: seq<seq<Item>>, s: Scan, actions: seq<Action>)
    requires AllGone(s)
    ensures Run(outs, s, actions) == s
    decreases |actions|
  {
    if actions != [] {
      GoneStay(outs, s, actions[1..]);
    }
  }

  lemma RoundGetsOn(outs: seq<seq<Item>>, s: Scan, round: seq<Action>)
    requires IsRound(round, |s.workers|) && !AllGone(s)
    ensures Work(outs, Run(outs, s, round)) < Work(outs, s)
  {
    var w :| 0 <= w < |s.workers| && s.workers[w] != Gone;
    CanAct(outs, s, w);
    RunGetsOn(outs, s, round, if IsEnabled(outs, s, Draw(w)) then Draw(w) else Deliver(w));
  }

  /** A run that is fair for as many rounds as there are actions to do stops every worker. */
  lemma {:induction false} FairRunsEnd(outs: seq<seq<Item>>, s: Scan, actions: seq<Action>, n: nat)
    requires HasRounds(actions, |s.workers|, n) && Work(outs, s) <= n
    ensures AllGone(Run(outs, s, actions))
    decreases n
  {
    if AllGone(s) {
      GoneStay(outs, s, actions);
    } else if n == 0 {
      SomeWork(s.workers);
    } else {
      var k :| 0 <= k <= |actions| && IsRound(actions[..k], |s.workers|) && HasRounds(actions[k..], |s.workers|, n - 1);
      RoundGetsOn(outs, s, actions[..k]);
      RunKeepsWorkers(outs, s, actions[..k]);
      FairRunsEnd(outs, Run(outs, s, actions[..k]), actions[k..], n - 1);
      RunSplits(outs, s, actions[..k], actions[k..]);
      assert actions[..k] + actions[k..] == actions;
    }
  }

  lemma {:induction false} SomeWork(workers: seq<Worker>)
    requires exists w | 0 <= w < |workers| :: workers[w] != Gone
    ensures WorkInHand(workers) > 0
  {
    if workers[0] == Gone {
      var w :| 0 <= w < |workers| && workers[w] != Gone;
      assert workers[1..][w - 1] != Gone;
      SomeWork(workers[1..]);
    }
  }

  /** Every fair run delivers exactly what the shards hold. */
  lemma FairRunsDeliverAll(outs: seq<seq<Item>>, workers: nat, actions: seq<Action>, n: nat)
    requires workers > 0 && HasRounds(actions, workers, n) && Work(outs, Start(workers)) <= n
    ensures AllGone(Run(outs, Start(workers), actions)) && Run(outs, Start(workers), actions).delivered == Undrawn(outs, 0)
  {
    FairRunsEnd(outs, Start(workers), actions, n);
    EveryRunDeliversAll(outs, workers, actions);
  }

  /** Every worker draws and delivers once. */
  function Round(workers: nat): seq<Action> {
    if workers == 0 then [] else Round(workers - 1) + [Draw(workers - 1), Deliver(workers - 1)]
  }

  lemma {:induction false} RoundIsRound(workers: nat)
    ensures IsRound(Round(workers), workers)
  {
    if workers > 0 {
      RoundIsRound(workers - 1);
      var r := Round(workers);
      assert r[|r| - 2] == Draw(workers - 1) && r[|r| - 1] == Deliver(workers - 1);
    }
  }

  /** There are fair runs of any length. */
  lemma {:induction false} FairRunExists(workers: nat, n: nat) returns (actions: seq<Action>)
    ensures HasRounds(actions, workers, n)
  {
    actions := [];
    if n > 0 {
      var rest := FairRunExists(workers, n - 1);
      var round := Round(workers);
      RoundIsRound(workers);
      actions := round + rest;
      assert actions[..|round|] == round && actions[|round|..] == rest;
    }
  }

  // ----- Sums -----

  ghost function Sum(outs: seq<seq<Item>>): multiset<Item> {
    if outs == [] then multiset{} else multiset(outs[0]) + Sum(outs[1..])
  }

  lemma {:induction false} SumConcat(a: seq<seq<Item>>, b: seq<seq<Item>>)
    ensures Sum(a + b) == Sum(a) + Sum(b)
  {
    if a == [] {
      assert a + b == b;
    } else {
      assert (a + b)[1..] == a[1..] + b;
      SumConcat(a[1..], b);
    }
  }

  lemma {:induction false} UndrawnIsSum(outs: seq<seq<Item>>, i: nat)
    requires i <= |outs|
    ensures Undrawn(outs, i) == Sum(outs[i..])
    decreases |outs| - i
  {
    if i < |outs| {
      UndrawnIsSum(outs, i + 1);
      assert outs[i..][1..] == outs[i + 1..];
    }
  }
}
