/** When transactions that take locks in fixed orders can wait for each other for good.

A stuck state is reachable exactly when there is a ring: places in the programs, reached without conflict, at which each of
some transactions waits for the next one. Nothing here looks at which locks the programs take.
*/
module Deadlocks {
  import opened Common
  import opened Locks

  // ----- What every reachable state keeps -----

  predicate Compatible(a: seq<Lock>, held: nat, b: seq<Lock>, also: nat)
    requires held <= |a| && also <= |b|
  {
    forall u, v :: 0 <= u < held && 0 <= v < also ==> !Conflict(a[u], b[v])
  }

  ghost predicate Sound(ts: seq<Txn>) {
    && (forall i :: 0 <= i < |ts| ==> ts[i].held <= |ts[i].program|)
    && forall i, j :: 0 <= i < |ts| && 0 <= j < |ts| && i != j && !ts[i].committed && !ts[j].committed ==>
         Compatible(ts[i].program, ts[i].held, ts[j].program, ts[j].held)
  }

  lemma StepKeepsSound(ts: seq<Txn>, i: nat)
    requires Sound(ts) && i < |ts| && CanStep(ts, i)
    ensures Sound(Step(ts, i))
  {
    var after := Step(ts, i);
    forall k, j | 0 <= k < |after| && 0 <= j < |after| && k != j && !after[k].committed && !after[j].committed
      ensures Compatible(after[k].program, after[k].held, after[j].program, after[j].held)
    {
      assert Compatible(ts[k].program, ts[k].held, ts[j].program, ts[j].held);
      if k == i {
        GrantedIsFree(ts, i, j);
      } else if j == i {
        GrantedIsFree(ts, i, k);
      }
    }
  }

  lemma GrantedIsFree(ts: seq<Txn>, i: nat, j: nat)
    requires i < |ts| && j < |ts| && i != j && CanStep(ts, i) && Waiting(ts[i]) && !ts[j].committed
    ensures forall u :: 0 <= u < ts[j].held && u < |ts[j].program| ==>
              !Conflict(ts[j].program[u], ts[i].program[ts[i].held]) && !Conflict(ts[i].program[ts[i].held], ts[j].program[u])
  {
    assert !Blocks(ts[j], ts[i].program[ts[i].held]);
  }

  lemma {:induction false} StaysSound(ts: seq<Txn>, schedule: seq<nat>, last: seq<Txn>)
    requires Sound(ts) && Follows(ts, schedule, last)
    ensures Sound(last) && |last| == |ts| && forall i :: 0 <= i < |ts| ==> last[i].program == ts[i].program
    decreases |schedule|
  {
    if schedule != [] {
      StepKeepsSound(ts, schedule[0]);
      StaysSound(Step(ts, schedule[0]), schedule[1..], last);
    }
  }

  // ----- Rings -----

  /** Program `x`, at its place, waits for a lock program `y` holds at its own. */
  predicate Awaits(programs: seq<seq<Lock>>, at: seq<nat>, x: nat, y: nat)
    requires |at| == |programs| && x < |programs| && y < |programs|
  {
    at[x] < |programs[x]| && Meets(programs[y], at[y], programs[x][at[x]])
  }

  function Next(k: nat, n: nat): nat
    requires k < n
  {
    if k + 1 == n then 0 else k + 1
  }

  /** Different transactions, at places they can reach together, each waiting for the next and the last for the first. */
  ghost predicate Ring(programs: seq<seq<Lock>>, at: seq<nat>, ring: seq<nat>) {
    && |at| == |programs| && |ring| >= 2
    && (forall k :: 0 <= k < |ring| ==> ring[k] < |programs| && at[ring[k]] <= |programs[ring[k]]|)
    && (forall k, l :: 0 <= k < l < |ring| ==> ring[k] != ring[l])
    && (forall k, l :: 0 <= k < |ring| && 0 <= l < |ring| && k != l ==>
          Compatible(programs[ring[k]], at[ring[k]], programs[ring[l]], at[ring[l]]))
    && forall k :: 0 <= k < |ring| ==> Awaits(programs, at, ring[k], ring[Next(k, |ring|)])
  }

  // ----- A stuck state has a ring -----

  function Places(ts: seq<Txn>): (r: seq<nat>)
    ensures |r| == |ts| && forall i :: 0 <= i < |r| ==> r[i] == ts[i].held
  {
    seq(|ts|, i requires 0 <= i < |ts| => ts[i].held)
  }

  ghost predicate Live(ts: seq<Txn>, i: nat) {
    i < |ts| && !ts[i].committed
  }

  lemma StuckAwaits(ts: seq<Txn>, programs: seq<seq<Lock>>, i: nat) returns (j: nat)
    requires Stuck(ts) && Sound(ts) && |programs| == |ts| && Live(ts, i)
    requires forall k :: 0 <= k < |ts| ==> ts[k].program == programs[k]
    ensures Live(ts, j) && j != i && Awaits(programs, Places(ts), i, j)
  {
    assert !CanStep(ts, i) && Waiting(ts[i]);
    j :| 0 <= j < |ts| && j != i && Blocks(ts[j], ts[i].program[ts[i].held]);
  }

  /** Different live transactions, each waiting for the next. */
  ghost predicate Chain(ts: seq<Txn>, programs: seq<seq<Lock>>, path: seq<nat>)
    requires |programs| == |ts|
  {
    && (forall k :: 0 <= k < |path| ==> Live(ts, path[k]))
    && (forall k, l :: 0 <= k < l < |path| ==> path[k] != path[l])
    && forall k :: 0 <= k < |path| - 1 ==> Awaits(programs, Places(ts), path[k], path[k + 1])
  }

  function Upto(n: nat): (r: set<nat>)
    ensures |r| == n && forall i :: i in r <==> 0 <= i < n
  {
    if n == 0 then {} else Upto(n - 1) + {n - 1}
  }

  function Members(path: seq<nat>): set<nat> {
    set x | x in path
  }

  lemma {:induction false} DistinctCount(path: seq<nat>)
    requires forall k, l :: 0 <= k < l < |path| ==> path[k] != path[l]
    ensures |Members(path)| == |path|
  {
    if path != [] {
      var n := |path| - 1;
      DistinctCount(path[..n]);
      assert path == path[..n] + [path[n]];
      assert path[n] !in Members(path[..n]);
      assert Members(path) == Members(path[..n]) + {path[n]};
    }
  }

  lemma ShortChain(ts: seq<Txn>, programs: seq<seq<Lock>>, path: seq<nat>)
    requires |programs| == |ts| && Chain(ts, programs, path)
    ensures |path| <= |ts|
  {
    DistinctCount(path);
    assert Members(path) <= Upto(|ts|);
    SubsetCount(Members(path), Upto(|ts|));
  }

  lemma {:induction false} SubsetCount(a: set<nat>, b: set<nat>)
    requires a <= b
    ensures |a| <= |b|
  {
    if a != {} {
      var x :| x in a;
      SubsetCount(a - {x}, b - {x});
    }
  }

  /** Following the waits from one transaction to the next closes a ring sooner or later. */
  lemma FindRing(ts: seq<Txn>, programs: seq<seq<Lock>>, path: seq<nat>) returns (ring: seq<nat>)
    requires Stuck(ts) && Sound(ts) && |programs| == |ts| && path != [] && Chain(ts, programs, path)
    requires forall k :: 0 <= k < |ts| ==> ts[k].program == programs[k]
    ensures Ring(programs, Places(ts), ring)
    decreases |ts| + 1 - |path|
  {
    var last := path[|path| - 1];
    var next := StuckAwaits(ts, programs, last);
    ShortChain(ts, programs, path);
    if next in path {
      var k :| 0 <= k < |path| && path[k] == next;
      ring := path[k..];
      ClosesRing(ts, programs, ring);
    } else {
      ring := FindRing(ts, programs, path + [next]);
    }
  }

  lemma ClosesRing(ts: seq<Txn>, programs: seq<seq<Lock>>, ring: seq<nat>)
    requires Sound(ts) && |programs| == |ts| && |ring| >= 2 && Chain(ts, programs, ring)
    requires forall k :: 0 <= k < |ts| ==> ts[k].program == programs[k]
    requires Awaits(programs, Places(ts), ring[|ring| - 1], ring[0])
    ensures Ring(programs, Places(ts), ring)
  {
    var at := Places(ts);
    forall k, l | 0 <= k < |ring| && 0 <= l < |ring| && k != l
      ensures Compatible(programs[ring[k]], at[ring[k]], programs[ring[l]], at[ring[l]])
    {
      assert ring[k] != ring[l];
    }
  }

  // ----- A ring gets stuck -----

  lemma {:induction false} FollowsOn(ts: seq<Txn>, first: seq<nat>, mid: seq<Txn>, second: seq<nat>, last: seq<Txn>)
    requires Follows(ts, first, mid) && Follows(mid, second, last)
    ensures Follows(ts, first + second, last)
    decreases |first|
  {
    if first == [] {
      assert first + second == second;
    } else {
      FollowsOn(Step(ts, first[0]), first[1..], mid, second, last);
      assert (first + second)[1..] == first[1..] + second;
    }
  }

  ghost predicate ClearWay(ts: seq<Txn>, i: nat, from: nat, to: nat)
    requires i < |ts| && to <= |ts[i].program|
  {
    forall j, k :: 0 <= j < |ts| && j != i && from <= k < to ==> !Blocks(ts[j], ts[i].program[k])
  }

  /** One transaction takes its next `n` locks while nobody else holds anything in their way. */
  lemma {:induction false} Advance(ts: seq<Txn>, i: nat, n: nat) returns (schedule: seq<nat>)
    requires i < |ts| && !ts[i].committed && ts[i].held + n <= |ts[i].program|
    requires ClearWay(ts, i, ts[i].held, ts[i].held + n)
    ensures Follows(ts, schedule, ts[i := ts[i].(held := ts[i].held + n)])
    decreases n
  {
    if n == 0 {
      schedule := [];
      assert ts[i := ts[i].(held := ts[i].held)] == ts;
    } else {
      var next := Step(ts, i);
      assert next == ts[i := ts[i].(held := ts[i].held + 1)];
      var rest := Advance(next, i, n - 1);
      assert next[i := next[i].(held := next[i].held + (n - 1))] == ts[i := ts[i].(held := ts[i].held + n)];
      schedule := [i] + rest;
    }
  }

  /** The first `n` members of the ring are at their places, everybody else is at the start. */
  ghost predicate Arrived(ts: seq<Txn>, programs: seq<seq<Lock>>, at: seq<nat>, ring: seq<nat>, n: nat)
    requires |at| == |programs| && n <= |ring| && forall k :: 0 <= k < |ring| ==> ring[k] < |programs|
  {
    && |ts| == |programs|
    && (forall i :: 0 <= i < |ts| ==> ts[i].program == programs[i] && !ts[i].committed)
    && (forall k :: 0 <= k < n ==> ts[ring[k]].held == at[ring[k]])
    && forall i :: 0 <= i < |ts| && i !in ring[..n] ==> ts[i].held == 0
  }

  lemma NobodyInTheWay(ts: seq<Txn>, programs: seq<seq<Lock>>, at: seq<nat>, ring: seq<nat>, n: nat)
    requires Ring(programs, at, ring) && n < |ring| && Arrived(ts, programs, at, ring, n)
    ensures ts[ring[n]].held == 0 && ts[ring[n]].program == programs[ring[n]] && ClearWay(ts, ring[n], 0, at[ring[n]])
  {
    assert ring[n] !in ring[..n];
    forall j, k | 0 <= j < |ts| && j != ring[n] && 0 <= k < at[ring[n]]
      ensures !Blocks(ts[j], programs[ring[n]][k])
    {
      if j in ring[..n] {
        var l :| 0 <= l < n && ring[l] == j;
        assert Compatible(programs[ring[l]], at[ring[l]], programs[ring[n]], at[ring[n]]);
      }
    }
  }

  lemma AdvanceFromStart(ts: seq<Txn>, i: nat, to: nat) returns (schedule: seq<nat>)
    requires i < |ts| && !ts[i].committed && ts[i].held == 0 && to <= |ts[i].program| && ClearWay(ts, i, 0, to)
    ensures Follows(ts, schedule, ts[i := ts[i].(held := to)])
  {
    schedule := Advance(ts, i, to);
  }

  lemma ArrivesNext(ts: seq<Txn>, programs: seq<seq<Lock>>, at: seq<nat>, ring: seq<nat>, n: nat, i: nat, to: nat)
    requires Ring(programs, at, ring) && n < |ring| && Arrived(ts, programs, at, ring, n) && i == ring[n] && to == at[i]
    ensures i < |ts| && !ts[i].committed && ts[i].held == 0 && to <= |ts[i].program| && ClearWay(ts, i, 0, to)
    ensures Arrived(ts[i := ts[i].(held := to)], programs, at, ring, n + 1)
  {
    NobodyInTheWay(ts, programs, at, ring, n);
    assert ring[..n + 1] == ring[..n] + [ring[n]];
  }

  lemma ArriveOne(ts: seq<Txn>, programs: seq<seq<Lock>>, at: seq<nat>, ring: seq<nat>, n: nat, i: nat, to: nat)
    returns (schedule: seq<nat>, after: seq<Txn>)
    requires Ring(programs, at, ring) && n < |ring| && Arrived(ts, programs, at, ring, n) && i == ring[n] && to == at[i]
    ensures Follows(ts, schedule, after) && Arrived(after, programs, at, ring, n + 1)
  {
    ArrivesNext(ts, programs, at, ring, n, i, to);
    after := ts[i := ts[i].(held := to)];
    schedule := AdvanceFromStart(ts, i, to);
  }

  lemma {:induction false} Arrive(programs: seq<seq<Lock>>, at: seq<nat>, ring: seq<nat>, n: nat)
    returns (schedule: seq<nat>, ts: seq<Txn>)
    requires Ring(programs, at, ring) && n <= |ring|
    ensures Follows(Started(programs), schedule, ts) && Arrived(ts, programs, at, ring, n)
  {
    if n == 0 {
      schedule, ts := [], Started(programs);
    } else {
      var before, mid := Arrive(programs, at, ring, n - 1);
      var more;
      more, ts := ArriveOne(mid, programs, at, ring, n - 1, ring[n - 1], at[ring[n - 1]]);
      FollowsOn(Started(programs), before, mid, more, ts);
      schedule := before + more;
    }
  }

  /** Every member of the ring is at its place and waits. */
  ghost predicate Held(ts: seq<Txn>, programs: seq<seq<Lock>>, at: seq<nat>, ring: seq<nat>) {
    && |ts| == |programs| == |at|
    && (forall i :: 0 <= i < |ts| ==> ts[i].program == programs[i])
    && forall k :: 0 <= k < |ring| ==> ring[k] < |ts| && ts[ring[k]].held == at[ring[k]] && !ts[ring[k]].committed
  }

  lemma MemberCannotStep(ts: seq<Txn>, programs: seq<seq<Lock>>, at: seq<nat>, ring: seq<nat>, k: nat)
    requires Ring(programs, at, ring) && Held(ts, programs, at, ring) && k < |ring|
    ensures !CanStep(ts, ring[k])
  {
    var next := Next(k, |ring|);
    assert ring[next] != ring[k];
    assert Awaits(programs, at, ring[k], ring[next]);
    assert Blocks(ts[ring[next]], ts[ring[k]].program[ts[ring[k]].held]);
  }

  lemma StepKeepsHeld(ts: seq<Txn>, programs: seq<seq<Lock>>, at: seq<nat>, ring: seq<nat>, i: nat)
    requires Ring(programs, at, ring) && Held(ts, programs, at, ring) && i < |ts| && CanStep(ts, i)
    ensures Held(Step(ts, i), programs, at, ring)
  {
    forall k | 0 <= k < |ring|
      ensures ring[k] != i
    {
      MemberCannotStep(ts, programs, at, ring, k);
    }
  }

  /** Whatever the others do, they come to an end, and the ring is still there. */
  lemma {:induction false} RunsDry(ts: seq<Txn>, programs: seq<seq<Lock>>, at: seq<nat>, ring: seq<nat>)
    returns (schedule: seq<nat>, last: seq<Txn>)
    requires Ring(programs, at, ring) && Held(ts, programs, at, ring)
    ensures Follows(ts, schedule, last) && Stuck(last)
    decreases Sum(Work(ts))
  {
    if i :| 0 <= i < |ts| && CanStep(ts, i) {
      StepKeepsHeld(ts, programs, at, ring, i);
      StepDecreases(ts, i);
      var rest;
      rest, last := RunsDry(Step(ts, i), programs, at, ring);
      schedule := [i] + rest;
    } else {
      schedule, last := [], ts;
      assert !ts[ring[0]].committed;
    }
  }

  /** Transactions can wait for each other for good exactly when some of them form a ring. */
  lemma DeadlockIff(programs: seq<seq<Lock>>)
    ensures CanGetStuck(programs) <==> exists at, ring :: Ring(programs, at, ring)
  {
    if CanGetStuck(programs) {
      var schedule: seq<nat>, last: seq<Txn> :| Follows(Started(programs), schedule, last) && Stuck(last);
      StaysSound(Started(programs), schedule, last);
      var i :| 0 <= i < |last| && !last[i].committed;
      var ring := FindRing(last, programs, [i]);
    }
    if at, ring :| Ring(programs, at, ring) {
      var before, mid := Arrive(programs, at, ring, |ring|);
      var more, last := RunsDry(mid, programs, at, ring);
      FollowsOn(Started(programs), before, mid, more, last);
    }
  }

  // ----- Two transactions -----

  /** Two places, reached without conflict, at each of which the lock wanted next conflicts with one the other holds. */
  predicate Crossing(a: seq<Lock>, b: seq<Lock>, i: nat, j: nat) {
    i < |a| && j < |b| && Compatible(a, i, b, j) && Meets(b, j, a[i]) && Meets(a, i, b[j])
  }

  lemma CompatibleSymmetric(a: seq<Lock>, i: nat, b: seq<Lock>, j: nat)
    requires i <= |a| && j <= |b| && Compatible(a, i, b, j)
    ensures Compatible(b, j, a, i)
  {
  }

  lemma ShortRing(programs: seq<seq<Lock>>, at: seq<nat>, ring: seq<nat>)
    requires Ring(programs, at, ring)
    ensures |ring| <= |programs|
  {
    DistinctCount(ring);
    assert Members(ring) <= Upto(|programs|);
    SubsetCount(Members(ring), Upto(|programs|));
  }

  lemma PairRing(a: seq<Lock>, b: seq<Lock>, at: seq<nat>, ring: seq<nat>)
    requires Ring([a, b], at, ring)
    ensures Crossing(a, b, at[0], at[1])
  {
    var x, y := ring[0], ring[1];
    assert x != y;
    ShortRing([a, b], at, ring);
    assert Next(0, 2) == 1 && Next(1, 2) == 0;
    assert Awaits([a, b], at, x, y) && Awaits([a, b], at, y, x);
    assert Compatible([a, b][x], at[x], [a, b][y], at[y]) && Compatible([a, b][y], at[y], [a, b][x], at[x]);
  }

  lemma CrossingRing(a: seq<Lock>, b: seq<Lock>, i: nat, j: nat)
    requires Crossing(a, b, i, j)
    ensures Ring([a, b], [i, j], [0, 1])
  {
    CompatibleSymmetric(a, i, b, j);
    assert Next(0, 2) == 1 && Next(1, 2) == 0;
  }

  /** Two transactions can wait for each other for good exactly when their programs cross. */
  lemma PairDeadlockIff(a: seq<Lock>, b: seq<Lock>)
    ensures CanGetStuck([a, b]) <==> exists i, j :: Crossing(a, b, i, j)
  {
    DeadlockIff([a, b]);
    if at, ring :| Ring([a, b], at, ring) {
      PairRing(a, b, at, ring);
    }
    if i, j :| Crossing(a, b, i, j) {
      CrossingRing(a, b, i, j);
    }
  }

  lemma CrossingSymmetric(a: seq<Lock>, b: seq<Lock>, i: nat, j: nat)
    requires Crossing(a, b, i, j)
    ensures Crossing(b, a, j, i)
  {
    CompatibleSymmetric(a, i, b, j);
  }

  /** Where `b` first wants what the first `held` locks of `a` stand in the way of. */
  ghost predicate FirstMeeting(a: seq<Lock>, held: nat, b: seq<Lock>, j: nat) {
    j < |b| && Meets(a, held, b[j]) && forall v :: 0 <= v < j ==> !Meets(a, held, b[v])
  }

  lemma {:induction false} FindMeeting(a: seq<Lock>, held: nat, b: seq<Lock>, from: nat, to: nat) returns (j: nat)
    requires from <= to < |b| && Meets(a, held, b[to]) && forall v :: 0 <= v < from ==> !Meets(a, held, b[v])
    ensures j <= to && FirstMeeting(a, held, b, j)
    decreases |b| - from
  {
    if Meets(a, held, b[from]) {
      j := from;
    } else {
      j := FindMeeting(a, held, b, from + 1, to);
    }
  }

  lemma {:induction false} FindCrossing(a: seq<Lock>, b: seq<Lock>, held: nat, from: nat, to: nat, j: nat) returns (i: nat)
    requires held <= from <= to < |a| && FirstMeeting(a, held, b, j) && Meets(b, j, a[to])
    requires forall u :: held <= u < from ==> !Meets(b, j, a[u])
    ensures Crossing(a, b, i, j)
    decreases |a| - from
  {
    if Meets(b, j, a[from]) {
      i := from;
      UpToMeeting(a, b, held, i, j);
    } else {
      i := FindCrossing(a, b, held, from + 1, to, j);
    }
  }

  lemma UpToMeeting(a: seq<Lock>, b: seq<Lock>, held: nat, i: nat, j: nat)
    requires held <= i <= |a| && FirstMeeting(a, held, b, j) && forall u :: held <= u < i ==> !Meets(b, j, a[u])
    ensures Compatible(a, i, b, j) && Meets(a, i, b[j])
  {
    forall u, v | 0 <= u < i && 0 <= v < j
      ensures !Conflict(a[u], b[v])
    {
      ConflictSymmetric(a[u], b[v]);
      if u < held {
        assert !Meets(a, held, b[v]);
      } else {
        assert !Meets(b, j, a[u]);
      }
    }
  }

  /** `a` stops at `held`, `b` where it first meets it, and `a` goes on until it meets `b`. */
  lemma CrossFrom(a: seq<Lock>, b: seq<Lock>, held: nat, j: nat, to: nat)
    requires held <= to < |a| && FirstMeeting(a, held, b, j) && Meets(b, j, a[to])
    ensures CanGetStuck([a, b])
  {
    var i := FindCrossing(a, b, held, held, to, j);
    PairDeadlockIff(a, b);
  }

  /** A crossing with its four places: `a` waits at `i` for what `b` took at `v`, `b` waits at `j` for what `a` took at `u`. */
  predicate Crossed(a: seq<Lock>, b: seq<Lock>, i: nat, u: nat, j: nat, v: nat) {
    u < i < |a| && v < j < |b| && Compatible(a, i, b, j) && Conflict(a[i], b[v]) && Conflict(a[u], b[j])
  }

  lemma CrossedSymmetric(a: seq<Lock>, b: seq<Lock>, i: nat, u: nat, j: nat, v: nat)
    requires Crossed(a, b, i, u, j, v)
    ensures Crossed(b, a, j, v, i, u)
  {
    CompatibleSymmetric(a, i, b, j);
  }

  lemma StuckCrosses(a: seq<Lock>, b: seq<Lock>) returns (i: nat, u: nat, j: nat, v: nat)
    requires CanGetStuck([a, b])
    ensures Crossed(a, b, i, u, j, v)
  {
    PairDeadlockIff(a, b);
    i, j :| Crossing(a, b, i, j);
    u :| 0 <= u < i && u < |a| && Conflict(a[u], b[j]);
    v :| 0 <= v < j && v < |b| && Conflict(b[v], a[i]);
    ConflictSymmetric(b[v], a[i]);
  }

  lemma PairSymmetric(a: seq<Lock>, b: seq<Lock>)
    requires CanGetStuck([a, b])
    ensures CanGetStuck([b, a])
  {
    PairDeadlockIff(a, b);
    PairDeadlockIff(b, a);
    var i, j :| Crossing(a, b, i, j);
    CrossingSymmetric(a, b, i, j);
  }

  // ----- Ranks -----

  /** Whoever else wants a lock in conflict with this one wants it first of all. */
  ghost predicate Harmless(programs: seq<seq<Lock>>, j: nat, u: nat)
    requires j < |programs| && u < |programs[j]|
  {
    forall i, w :: 0 <= i < |programs| && i != j && 0 <= w < |programs[i]| && Conflict(programs[j][u], programs[i][w]) ==> w == 0
  }

  /** Every program takes its locks in rank order, harmless ones apart. */
  ghost predicate Tame(programs: seq<seq<Lock>>, rank: Resource -> (nat, nat)) {
    forall j, u, v :: 0 <= j < |programs| && 0 <= u < v < |programs[j]| ==>
      Below(rank(programs[j][u].resource), rank(programs[j][v].resource)) || Harmless(programs, j, u)
  }

  predicate Below(a: (nat, nat), b: (nat, nat)) {
    a.0 < b.0 || (a.0 == b.0 && a.1 < b.1)
  }

  function Wanted(programs: seq<seq<Lock>>, at: seq<nat>, x: nat): Resource
    requires |at| == |programs| && x < |programs| && at[x] < |programs[x]|
  {
    programs[x][at[x]].resource
  }

  lemma RingWants(programs: seq<seq<Lock>>, at: seq<nat>, ring: seq<nat>, k: nat)
    requires Ring(programs, at, ring) && k < |ring|
    ensures at[ring[k]] < |programs[ring[k]]|
  {
    assert Awaits(programs, at, ring[k], ring[Next(k, |ring|)]);
  }

  /** Every member of a ring holds something: somebody waits for it. */
  lemma RingHolds(programs: seq<seq<Lock>>, at: seq<nat>, ring: seq<nat>, k: nat)
    requires Ring(programs, at, ring) && k < |ring|
    ensures at[ring[k]] > 0
  {
    var before := if k == 0 then |ring| - 1 else k - 1;
    assert Next(before, |ring|) == k;
    assert Awaits(programs, at, ring[before], ring[k]);
  }

  /** Along a ring the wanted locks would climb. */
  lemma RingClimbs(programs: seq<seq<Lock>>, rank: Resource -> (nat, nat), at: seq<nat>, ring: seq<nat>, k: nat)
    requires Tame(programs, rank) && Ring(programs, at, ring) && k < |ring|
    ensures var next := ring[Next(k, |ring|)];
            && at[ring[k]] < |programs[ring[k]]| && at[next] < |programs[next]|
            && Below(rank(Wanted(programs, at, ring[k])), rank(Wanted(programs, at, next)))
  {
    var x, next := ring[k], Next(k, |ring|);
    var y := ring[next];
    RingWants(programs, at, ring, k);
    RingWants(programs, at, ring, next);
    RingHolds(programs, at, ring, k);
    assert Awaits(programs, at, x, y) && x != y;
    var u :| 0 <= u < at[y] && u < |programs[y]| && Conflict(programs[y][u], programs[x][at[x]]);
    assert !Harmless(programs, y, u);
  }

  lemma {:induction false} HighestWanted(programs: seq<seq<Lock>>, rank: Resource -> (nat, nat), at: seq<nat>, ring: seq<nat>, n: nat)
    returns (k: nat)
    requires Ring(programs, at, ring) && 0 < n <= |ring|
    requires forall l :: 0 <= l < |ring| ==> at[ring[l]] < |programs[ring[l]]|
    ensures k < n
    ensures forall l :: 0 <= l < n ==> !Below(rank(Wanted(programs, at, ring[k])), rank(Wanted(programs, at, ring[l])))
  {
    if n == 1 {
      k := 0;
    } else {
      k := HighestWanted(programs, rank, at, ring, n - 1);
      if Below(rank(Wanted(programs, at, ring[k])), rank(Wanted(programs, at, ring[n - 1]))) {
        k := n - 1;
      }
    }
  }

  /** Transactions that take their locks in rank order, harmless ones apart, never wait for each other for good. */
  lemma TameNeverStuck(programs: seq<seq<Lock>>, rank: Resource -> (nat, nat))
    requires Tame(programs, rank)
    ensures !CanGetStuck(programs)
  {
    DeadlockIff(programs);
    if at, ring :| Ring(programs, at, ring) {
      NoRing(programs, rank, at, ring);
    }
  }

  lemma NoRing(programs: seq<seq<Lock>>, rank: Resource -> (nat, nat), at: seq<nat>, ring: seq<nat>)
    requires Tame(programs, rank)
    ensures !Ring(programs, at, ring)
  {
    if Ring(programs, at, ring) {
      forall l | 0 <= l < |ring|
        ensures at[ring[l]] < |programs[ring[l]]|
      {
        RingWants(programs, at, ring, l);
      }
      var k := HighestWanted(programs, rank, at, ring, |ring|);
      RingClimbs(programs, rank, at, ring, k);
      assert false;
    }
  }
}
