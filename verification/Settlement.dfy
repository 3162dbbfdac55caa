/**
 * Sweeping lost claims (registry/call_admission.go:723-787,
 * registry/call_settlement.go:83-106). A sweep visits call keys one by one. With
 * nobody else writing, this module says what a visit does to the set of due
 * calls and when a drain leaves nothing behind; Sweeps lets everybody else act in
 * between.
 */
module Settlement {
  import opened Basics
  import opened Records
  import opened CallProtocol
  import opened CallInvariants
  import opened CallTheorems

  /** How many due calls one batch visits. */
  const BATCH: nat := 128

  predicate IsDue(w: World, key: string) {
    CallOf(w, key).due.Some? && CallOf(w, key).due.value <= w.now
  }

  /** The members of the deadline index at or before the clock. */
  function DueKeys(w: World): set<string> {
    set k | k in w.calls && IsDue(w, k)
  }

  lemma DueKeysAreDue(w: World, key: string)
    ensures key in DueKeys(w) <==> IsDue(w, key)
  {
  }

  /** A visit fails only when a stored call is missing from the membership hash. */
  predicate Visitable(c: Call) {
    !IsAdmitted(c) || c.member.Some?
  }

  /** What one visit does: settle a stored call, or clean up after a vanished one. */
  function VisitOp(c: Call, cause: Cause, fallback: Option<Owner>): CallOp
    requires Visitable(c)
  {
    if IsAdmitted(c) then SettleOp(c.member.value, cause) else CleanupOp(fallback)
  }

  function Visit(w: World, key: string, cause: Cause, fallback: Option<Owner>): World {
    if Visitable(CallOf(w, key)) then Apply(w, On(key, VisitOp(CallOf(w, key), cause, fallback))) else w
  }

  function Sweep(w: World, keys: seq<string>, cause: Cause, fallback: Option<Owner>): World
    decreases |keys|
  {
    if keys == [] then w
    else Visit(Sweep(w, keys[..|keys| - 1], cause, fallback), keys[|keys| - 1], cause, fallback)
  }

  predicate Distinct(keys: seq<string>) {
    forall i, j :: 0 <= i < j < |keys| ==> keys[i] != keys[j]
  }

  predicate SweepCause(cause: Cause) {
    cause == ExecutionDeadline || cause == LeaseReleased
  }

  /** One visit: the clock, the catalog and every other call stay as they were. */
  lemma VisitIsLocal(w: World, key: string, cause: Cause, fallback: Option<Owner>, other: string)
    ensures var n := Visit(w, key, cause, fallback);
            && n.now == w.now && n.catalog == w.catalog && n.requests == w.requests
            && (other != key ==> CallOf(n, other) == CallOf(w, other))
  {
  }

  /** A sweep visits each listed call once, in the state it had before the sweep. */
  lemma {:induction false} SweepIsLocal(w: World, keys: seq<string>, cause: Cause, fallback: Option<Owner>, key: string)
    requires Distinct(keys)
    ensures var n := Sweep(w, keys, cause, fallback);
            && n.now == w.now && n.catalog == w.catalog && n.requests == w.requests
            && CallOf(n, key) == (if key in keys then CallOf(Visit(w, key, cause, fallback), key) else CallOf(w, key))
    decreases |keys|
  {
    if keys != [] {
      var init, last := keys[..|keys| - 1], keys[|keys| - 1];
      assert keys == init + [last];
      SweepIsLocal(w, init, cause, fallback, key);
      SweepIsLocal(w, init, cause, fallback, last);
      assert last !in init;
      VisitIsLocal(Sweep(w, init, cause, fallback), last, cause, fallback, key);
      VisitDependsOnCall(w, Sweep(w, init, cause, fallback), last, cause, fallback);
    }
  }

  lemma VisitDependsOnCall(w: World, n: World, key: string, cause: Cause, fallback: Option<Owner>)
    requires n.now == w.now && n.catalog == w.catalog && CallOf(n, key) == CallOf(w, key)
    ensures CallOf(Visit(n, key, cause, fallback), key) == CallOf(Visit(w, key, cause, fallback), key)
  {
  }

  /** After a visit a call is not due: it was finished, dropped, or given a later deadline. */
  lemma VisitedIsNotDue(w: World, key: string, cause: Cause, fallback: Option<Owner>)
    requires Visitable(CallOf(w, key))
    ensures !IsDue(Visit(w, key, cause, fallback), key)
  {
  }

  lemma VisitKeeps(w: World, key: string, cause: Cause, fallback: Option<Owner>)
    requires Inv(w) && AllIndexed(w) && SweepCause(cause)
    ensures Inv(Visit(w, key, cause, fallback)) && AllIndexed(Visit(w, key, cause, fallback))
  {
    var c := CallOf(w, key);
    if Visitable(c) {
      var op := On(key, VisitOp(c, cause, fallback));
      StepKeepsInv(w, op);
      IndexesKeptExactlyWithoutRace(w, op);
    }
  }

  lemma {:induction false} SweepKeeps(w: World, keys: seq<string>, cause: Cause, fallback: Option<Owner>)
    requires Inv(w) && AllIndexed(w) && SweepCause(cause)
    ensures Inv(Sweep(w, keys, cause, fallback)) && AllIndexed(Sweep(w, keys, cause, fallback))
    decreases |keys|
  {
    if keys != [] {
      SweepKeeps(w, keys[..|keys| - 1], cause, fallback);
      VisitKeeps(Sweep(w, keys[..|keys| - 1], cause, fallback), keys[|keys| - 1], cause, fallback);
    }
  }

  /** The calls a sweep over these keys finishes. */
  function Finishing(w: World, keys: seq<string>): set<string> {
    set k | k in keys && Settles(w, CallOf(w, k))
  }

  /** One more key: it is visited as it was before the sweep, and counted once. */
  lemma SweepNext(w: World, keys: seq<string>, i: nat, cause: Cause, fallback: Option<Owner>)
    requires Distinct(keys) && i < |keys|
    ensures var n, c := Sweep(w, keys[..i], cause, fallback), CallOf(w, keys[i]);
            && CallOf(n, keys[i]) == c && (Settles(n, c) <==> Settles(w, c))
            && Sweep(w, keys[..i + 1], cause, fallback) == Visit(n, keys[i], cause, fallback)
            && |Finishing(w, keys[..i + 1])| == |Finishing(w, keys[..i])| + (if Settles(w, c) then 1 else 0)
  {
    SweepIsLocal(w, keys[..i], cause, fallback, keys[i]);
    assert keys[..i + 1][..i] == keys[..i] && keys[..i + 1] == keys[..i] + [keys[i]];
    assert keys[i] !in keys[..i];
    FinishingNext(w, keys[..i], keys[i]);
  }

  lemma FinishingNext(w: World, keys: seq<string>, key: string)
    requires key !in keys
    ensures |Finishing(w, keys + [key])| == |Finishing(w, keys)| + (if Settles(w, CallOf(w, key)) then 1 else 0)
  {
    assert Finishing(w, keys + [key]) ==
           Finishing(w, keys) + (if Settles(w, CallOf(w, key)) then {key} else {});
  }

  function Score(w: World, key: string): nat {
    if CallOf(w, key).due.Some? then CallOf(w, key).due.value else 0
  }

  /** The due calls in the order of the deadline index; equal scores come in any order. */
  ghost predicate InIndexOrder(w: World, keys: seq<string>) {
    && Distinct(keys)
    && (forall k :: k in keys <==> IsDue(w, k))
    && (forall i, j :: 0 <= i < j < |keys| ==> Score(w, keys[i]) <= Score(w, keys[j]))
  }

  lemma {:induction false} DistinctCardinality(keys: seq<string>)
    requires Distinct(keys)
    ensures |set k | k in keys| == |keys|
  {
    if keys != [] {
      var init, last := keys[..|keys| - 1], keys[|keys| - 1];
      DistinctCardinality(init);
      assert keys == init + [last] && last !in init;
      assert (set k | k in keys) == (set k | k in init) + {last};
    }
  }

  /** The index order lists each due call once. */
  lemma OrderIsTheDueSet(w: World, keys: seq<string>)
    requires InIndexOrder(w, keys)
    ensures DueKeys(w) == (set k | k in keys) && |DueKeys(w)| == |keys|
  {
    forall k ensures k in DueKeys(w) <==> k in keys {
      DueKeysAreDue(w, k);
    }
    assert DueKeys(w) == set k | k in keys;
    DistinctCardinality(keys);
  }

  /**
   * Progress: sweeping the first `count` due calls leaves exactly the others
   * due, at the scores they had, so the rest of the order is the new order.
   */
  lemma BatchShrinksDue(w: World, keys: seq<string>, count: nat)
    requires InIndexOrder(w, keys) && count <= |keys|
    requires forall k :: k in keys[..count] ==> Visitable(CallOf(w, k))
    ensures InIndexOrder(Sweep(w, keys[..count], ExecutionDeadline, None), keys[count..])
    ensures |DueKeys(Sweep(w, keys[..count], ExecutionDeadline, None))| == |DueKeys(w)| - count
  {
    var batch, rest := keys[..count], keys[count..];
    var n := Sweep(w, batch, ExecutionDeadline, None);
    assert keys == batch + rest;
    SplitIsDistinct(batch, rest, "");
    forall k ensures (k in rest <==> IsDue(n, k)) && (k in rest ==> Score(n, k) == Score(w, k)) {
      RestStaysDue(w, batch, rest, k);
    }
    assert InIndexOrder(n, rest) by {
      forall i, j | 0 <= i < j < |rest| ensures Score(n, rest[i]) <= Score(n, rest[j]) {
        assert rest[i] == keys[count + i] && rest[j] == keys[count + j];
      }
    }
    OrderIsTheDueSet(w, keys);
    OrderIsTheDueSet(n, rest);
  }

  lemma RestStaysDue(w: World, batch: seq<string>, rest: seq<string>, key: string)
    requires Distinct(batch + rest) && forall k :: k in batch + rest <==> IsDue(w, k)
    requires forall k :: k in batch ==> Visitable(CallOf(w, k))
    ensures var n := Sweep(w, batch, ExecutionDeadline, None);
            (key in rest <==> IsDue(n, key)) && (key in rest ==> Score(n, key) == Score(w, key))
  {
    SplitIsDistinct(batch, rest, key);
    SweepIsLocal(w, batch, ExecutionDeadline, None, key);
    if key in batch {
      VisitedIsNotDue(w, key, ExecutionDeadline, None);
    } else {
      assert key in batch + rest <==> IsDue(w, key);
    }
  }

  lemma SplitIsDistinct(a: seq<string>, b: seq<string>, key: string)
    requires Distinct(a + b)
    ensures Distinct(a) && Distinct(b) && !(key in a && key in b)
  {
    assert forall i :: 0 <= i < |a| ==> (a + b)[i] == a[i];
    assert forall i :: 0 <= i < |b| ==> (a + b)[|a| + i] == b[i];
  }

  /** No claimed call is both past its deadline and without a result, while its record is retained. */
  ghost predicate NothingOverdue(w: World) {
    forall k :: InFlight(CallOf(w, k)) && Retained(CallOf(w, k), w.now) ==> BeforeDeadline(CallOf(w, k), w.now)
  }

  /** An empty due set means every overdue call has its result. */
  lemma DrainedMeansNothingOverdue(w: World)
    requires AllIndexed(w) && DueKeys(w) == {}
    ensures NothingOverdue(w)
  {
    forall k | InFlight(CallOf(w, k)) && Retained(CallOf(w, k), w.now) ensures BeforeDeadline(CallOf(w, k), w.now) {
      DueKeysAreDue(w, k);
      assert IndexesOk(CallOf(w, k), w.now);
    }
  }

  lemma {:induction false} SubsetSmaller<T>(a: set<T>, b: set<T>)
    requires a <= b
    ensures |a| <= |b|
  {
    assert b == a + (b - a);
  }

  /** A batch finishes as many calls as it holds exactly when the sweep finishes each of them. */
  lemma FullBatch(w: World, keys: seq<string>)
    requires Distinct(keys)
    ensures |Finishing(w, keys)| <= |keys|
    ensures |Finishing(w, keys)| == |keys| <==> forall k :: k in keys ==> Settles(w, CallOf(w, k))
  {
    DistinctCardinality(keys);
    var all := set k | k in keys;
    SubsetSmaller(Finishing(w, keys), all);
    if k :| k in keys && !Settles(w, CallOf(w, k)) {
      SubsetSmaller(Finishing(w, keys), all - {k});
    } else {
      assert Finishing(w, keys) == all;
    }
  }

  /** Batch after batch, until one finishes fewer calls than the limit. */
  ghost function Drain(w: World, keys: seq<string>, limit: nat): World
    requires limit > 0
    decreases |keys|
  {
    var batch := keys[..Min(limit, |keys|)];
    var n := Sweep(w, batch, ExecutionDeadline, None);
    if |Finishing(w, batch)| < limit || |keys| < limit then n else Drain(n, keys[limit..], limit)
  }

  /** Agreement of the indexes makes every due call visitable. */
  lemma DueIsVisitable(w: World, keys: seq<string>, count: nat)
    requires AllIndexed(w) && InIndexOrder(w, keys) && count <= |keys|
    ensures forall k :: k in keys[..count] ==> Visitable(CallOf(w, k))
  {
    forall k | k in keys[..count] ensures Visitable(CallOf(w, k)) {
      assert k in keys && IndexesOk(CallOf(w, k), w.now);
    }
  }

  /** A drain of `w` that has visited `done` goes on as a drain of `n`. */
  ghost predicate Resumes(w: World, done: seq<string>, n: World, limit: nat)
    requires limit > 0
  {
    forall rest :: InIndexOrder(n, rest) ==>
      InIndexOrder(w, done + rest) && Drain(w, done + rest, limit) == Drain(n, rest, limit)
  }

  lemma DrainStops(w: World, keys: seq<string>, rest: seq<string>, limit: nat)
    requires limit > 0 && |keys| == Min(limit, |keys + rest|) && |Finishing(w, keys)| < limit
    ensures Drain(w, keys + rest, limit) == Sweep(w, keys, ExecutionDeadline, None)
  {
    assert (keys + rest)[..|keys|] == keys;
  }

  lemma DrainGoesOn(w: World, keys: seq<string>, rest: seq<string>, limit: nat)
    requires limit > 0 && |keys| == limit && |Finishing(w, keys)| == limit
    ensures Drain(w, keys + rest, limit) == Drain(Sweep(w, keys, ExecutionDeadline, None), rest, limit)
  {
    assert (keys + rest)[..limit] == keys && (keys + rest)[limit..] == rest;
  }

  /** What is left after a batch, in any index order, extends the batch to an order of all. */
  lemma OrderExtends(w: World, keys: seq<string>, rest: seq<string>, other: seq<string>)
    requires InIndexOrder(w, keys + rest) && forall k :: k in keys ==> Visitable(CallOf(w, k))
    requires InIndexOrder(Sweep(w, keys, ExecutionDeadline, None), other)
    ensures InIndexOrder(w, keys + other)
  {
    var n := Sweep(w, keys, ExecutionDeadline, None);
    forall k ensures (k in rest <==> k in other) && (k in rest ==> Score(n, k) == Score(w, k)) && !(k in keys && k in rest) {
      RestStaysDue(w, keys, rest, k);
      SplitIsDistinct(keys, rest, k);
    }
    var all := keys + other;
    SplitIsDistinct(keys, rest, "");
    forall i, j | 0 <= i < j < |all| ensures all[i] != all[j] && Score(w, all[i]) <= Score(w, all[j]) {
      if j < |keys| {
        assert (keys + rest)[i] == all[i] && (keys + rest)[j] == all[j];
      } else {
        assert other[j - |keys|] == all[j] && all[j] in other && all[j] in rest;
        var m :| 0 <= m < |rest| && rest[m] == all[j];
        if i < |keys| {
          assert (keys + rest)[i] == all[i] && (keys + rest)[|keys| + m] == all[j];
        } else {
          assert other[i - |keys|] == all[i] && all[i] in other;
          assert all[i] in rest;
        }
      }
    }
  }

  /** A batch that settles as many calls as it may visit leaves fewer due. */
  lemma FullBatchShrinksDue(w: World, keys: seq<string>, rest: seq<string>, limit: nat)
    requires limit > 0 && InIndexOrder(w, keys + rest) && |keys| <= limit <= |Finishing(w, keys)|
    requires forall k :: k in keys ==> Visitable(CallOf(w, k))
    ensures |keys| == |Finishing(w, keys)| == limit
    ensures |DueKeys(Sweep(w, keys, ExecutionDeadline, None))| < |DueKeys(w)|
  {
    SplitIsDistinct(keys, rest, "");
    FullBatch(w, keys);
    assert (keys + rest)[..limit] == keys;
    BatchShrinksDue(w, keys + rest, limit);
  }

  /** After a full batch the drain resumes on what is left. */
  lemma DrainResumes(w: World, done: seq<string>, n: World, keys: seq<string>, rest: seq<string>, limit: nat)
    requires limit > 0 && Resumes(w, done, n, limit)
    requires InIndexOrder(n, keys + rest) && |keys| <= limit <= |Finishing(n, keys)|
    requires forall k :: k in keys ==> Visitable(CallOf(n, k))
    ensures Resumes(w, done + keys, Sweep(n, keys, ExecutionDeadline, None), limit)
  {
    var m := Sweep(n, keys, ExecutionDeadline, None);
    FullBatchShrinksDue(n, keys, rest, limit);
    forall other | InIndexOrder(m, other)
      ensures InIndexOrder(w, (done + keys) + other) && Drain(w, (done + keys) + other, limit) == Drain(m, other, limit)
    {
      OrderExtends(n, keys, rest, other);
      DrainGoesOn(n, keys, other, limit);
      assert (done + keys) + other == done + (keys + other);
    }
  }

  /** Where the last batch of an order of this length begins. */
  function LastBatch(length: nat, limit: nat): nat
    requires limit > 0
    decreases length
  {
    if length <= limit then 0 else limit + LastBatch(length - limit, limit)
  }

  /** Every call before the last batch is one the sweep finishes. */
  predicate Drainable(w: World, keys: seq<string>, limit: nat)
    requires limit > 0
  {
    forall i :: 0 <= i < |keys| && i < LastBatch(|keys|, limit) ==> Settles(w, CallOf(w, keys[i]))
  }

  /** Sweeping one batch does not change whether a later call settles. */
  lemma RestSettlesAsBefore(w: World, keys: seq<string>, count: nat)
    requires AllIndexed(w) && InIndexOrder(w, keys) && count <= |keys|
    ensures var n := Sweep(w, keys[..count], ExecutionDeadline, None);
            forall i :: count <= i < |keys| ==> (Settles(n, CallOf(n, keys[i])) <==> Settles(w, CallOf(w, keys[i])))
  {
    forall i | count <= i < |keys|
      ensures var n := Sweep(w, keys[..count], ExecutionDeadline, None);
              Settles(n, CallOf(n, keys[i])) <==> Settles(w, CallOf(w, keys[i]))
    {
      SweepIsLocal(w, keys[..count], ExecutionDeadline, None, keys[i]);
    }
  }

  lemma DrainableSplits(w: World, keys: seq<string>, limit: nat)
    requires AllIndexed(w) && InIndexOrder(w, keys) && 0 < limit < |keys|
    ensures var n := Sweep(w, keys[..limit], ExecutionDeadline, None);
            Drainable(w, keys, limit) <==>
            (forall k :: k in keys[..limit] ==> Settles(w, CallOf(w, k))) && Drainable(n, keys[limit..], limit)
  {
    var n, rest, last := Sweep(w, keys[..limit], ExecutionDeadline, None), keys[limit..], LastBatch(|keys|, limit);
    RestSettlesAsBefore(w, keys, limit);
    assert last == limit + LastBatch(|rest|, limit);
    assert forall i :: 0 <= i < |rest| ==> rest[i] == keys[limit + i];
    assert forall i :: limit <= i < |keys| ==> keys[i] == rest[i - limit];
    assert forall i :: 0 <= i < limit ==> keys[i] in keys[..limit];
  }

  /**
   * A drain stops after the first batch that finishes fewer calls than the
   * limit, so a due call that only needed a later deadline can end it. It leaves
   * nothing due exactly when every call before the last batch is one the sweep
   * finishes; in particular whenever at most one batch is due.
   */
  lemma {:induction false} DrainIsCompleteExactly(w: World, keys: seq<string>, limit: nat)
    requires Inv(w) && AllIndexed(w) && InIndexOrder(w, keys) && limit > 0
    ensures DueKeys(Drain(w, keys, limit)) == {} <==> Drainable(w, keys, limit)
    ensures Drainable(w, keys, limit) ==> NothingOverdue(Drain(w, keys, limit))
    decreases |keys|
  {
    var count := Min(limit, |keys|);
    var batch := keys[..count];
    var n := Sweep(w, batch, ExecutionDeadline, None);
    DueIsVisitable(w, keys, count);
    BatchShrinksDue(w, keys, count);
    SweepKeeps(w, batch, ExecutionDeadline, None);
    OrderIsTheDueSet(w, keys);
    FullBatch(w, batch);
    if |keys| > limit {
      DrainableSplits(w, keys, limit);
      if |Finishing(w, batch)| == limit {
        DrainIsCompleteExactly(n, keys[limit..], limit);
      } else {
        assert |DueKeys(n)| > 0;
      }
    } else if |keys| == limit && |Finishing(w, batch)| == limit {
      DrainIsCompleteExactly(n, keys[limit..], limit);
    } else {
      assert DueKeys(n) == {};
      DrainedMeansNothingOverdue(n);
    }
  }

  // ---------------------------------------------------------------------
  // Releasing a provider
  // ---------------------------------------------------------------------

  /** A retained call claimed by this lease. */
  predicate ClaimedBy(w: World, key: string, owner: Owner) {
    Dispatched(CallOf(w, key)) && OwnerOf(CallOf(w, key)) == owner && Retained(CallOf(w, key), w.now)
  }

  predicate Finished(w: World, key: string, owner: Owner) {
    ClaimedBy(w, key, owner) ==> IsTerminal(CallOf(w, key))
  }

  /** No retained call owned by this lease is without a result. */
  ghost predicate NothingOwedBy(w: World, owner: Owner) {
    forall k :: Finished(w, k, owner)
  }

  /**
   * How a release comes to fail: a lease index still lists the call from an
   * earlier retention window, another lease claims the identity anew and
   * finishes it. Then the stored call is listed but has no membership, and the
   * release of the first lease fails for as long as the record is retained.
   */
  lemma FinishedElsewhereBlocksRelease(w: World, p: Provider, payload: Payload, first: Owner)
    requires Inv(w) && GrantsExecution(w, p)
    requires first in CallOf(w, p.key).listed && first != Owner(p.providerToken, p.lease)
    ensures var n := Apply(Apply(w, On(p.key, ClaimOp(p))), On(p.key, CompleteOp(p, payload)));
            first in CallOf(n, p.key).listed && !Visitable(CallOf(n, p.key))
  {
    assert CallOk(p.key, CallOf(w, p.key), w.now);
    var n := Apply(w, On(p.key, ClaimOp(p)));
    assert Authorized(n, p);
  }
}
