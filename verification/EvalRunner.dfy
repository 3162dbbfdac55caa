/**
 * The concurrent evaluation runner (eval/runner.go:201-249, 371-415): one
 * dispatcher hands scenario indexes over an unbuffered channel to a fixed set
 * of workers, each report goes to its declaration-order slot, and cancellation
 * may come at any moment. Every atomic action of a goroutine is one step.
 */
module EvalRunner {
  import opened Basics
  import opened Evaluation

  // ---------------------------------------------------------------------
  // The schedule
  // ---------------------------------------------------------------------

  /** Longer timeouts first, declaration order among equals. */
  predicate Ahead(timeouts: seq<int>, a: nat, b: nat)
    requires a < |timeouts| && b < |timeouts|
  {
    timeouts[a] > timeouts[b] || (timeouts[a] == timeouts[b] && a < b)
  }

  predicate InRange(schedule: seq<nat>, n: nat) {
    forall p :: 0 <= p < |schedule| ==> schedule[p] < n
  }

  predicate Sorted(timeouts: seq<int>, schedule: seq<nat>)
    requires InRange(schedule, |timeouts|)
  {
    forall p, q :: 0 <= p < q < |schedule| ==> Ahead(timeouts, schedule[p], schedule[q])
  }

  /** Every index below n occurs, and no index occurs twice. */
  predicate Permutation(schedule: seq<nat>, n: nat) {
    && |schedule| == n && InRange(schedule, n)
    && (forall i: nat :: i < n ==> i in schedule)
    && (forall p, q :: 0 <= p < q < n ==> schedule[p] != schedule[q])
  }

  /** The dispatch order: a permutation, in declaration order when serial, otherwise longest first and stable. */
  method ScenarioSchedule(timeouts: seq<int>, maxConcurrency: nat) returns (schedule: seq<nat>)
    ensures Permutation(schedule, |timeouts|)
    ensures maxConcurrency == 1 ==> forall p :: 0 <= p < |schedule| ==> schedule[p] == p
    ensures maxConcurrency != 1 ==> Sorted(timeouts, schedule)
  {
    schedule := [];
    for i := 0 to |timeouts|
      invariant |schedule| == i && forall p :: 0 <= p < i ==> schedule[p] == p
      invariant forall k: nat :: k < i ==> k in schedule
    {
      schedule := schedule + [i];
    }
    if maxConcurrency != 1 {
      schedule := SortStable(timeouts);
    }
  }

  /** Inserting each index behind those that are not shorter. */
  method SortStable(timeouts: seq<int>) returns (order: seq<nat>)
    ensures Permutation(order, |timeouts|) && Sorted(timeouts, order)
  {
    order := [];
    for i := 0 to |timeouts|
      invariant |order| == i && InRange(order, i)
      invariant forall k: nat :: k < i ==> k in order
      invariant Sorted(timeouts, order)
    {
      var p := i;
      while p > 0 && timeouts[order[p - 1]] < timeouts[i]
        invariant 0 <= p <= i
        invariant forall q :: p <= q < i ==> timeouts[order[q]] < timeouts[i]
      {
        p := p - 1;
      }
      InsertKeeps(timeouts, order, p, i);
      order := order[..p] + [i] + order[p..];
    }
  }

  lemma InsertKeeps(timeouts: seq<int>, order: seq<nat>, p: nat, i: nat)
    requires i < |timeouts| && |order| == i && InRange(order, i) && Sorted(timeouts, order) && p <= i
    requires forall k: nat :: k < i ==> k in order
    requires p > 0 ==> timeouts[order[p - 1]] >= timeouts[i]
    requires forall q :: p <= q < i ==> timeouts[order[q]] < timeouts[i]
    ensures var next := order[..p] + [i] + order[p..];
            && |next| == i + 1 && InRange(next, i + 1) && Sorted(timeouts, next)
            && forall k: nat :: k < i + 1 ==> k in next
  {
    var next := order[..p] + [i] + order[p..];
    InsertHolds(order, p, i);
    assert forall a :: 0 <= a < p ==> next[a] == order[a];
    assert forall a :: p < a <= i ==> next[a] == order[a - 1];
    forall a | 0 <= a < p ensures timeouts[order[a]] >= timeouts[i] {
      assert a < p - 1 ==> Ahead(timeouts, order[a], order[p - 1]);
    }
  }

  lemma InsertHolds(order: seq<nat>, p: nat, i: nat)
    requires |order| == i && p <= i && forall k: nat :: k < i ==> k in order
    ensures forall k: nat :: k < i + 1 ==> k in order[..p] + [i] + order[p..]
  {
    var next := order[..p] + [i] + order[p..];
    assert next[p] == i;
    forall k: nat | k < i ensures k in next {
      assert k in order && order == order[..p] + order[p..];
    }
  }

  /** The stable longest-first order is determined by the timeouts alone. */
  lemma ScheduleIsDetermined(timeouts: seq<int>, s: seq<nat>, t: seq<nat>)
    requires Permutation(s, |timeouts|) && Permutation(t, |timeouts|)
    requires Sorted(timeouts, s) && Sorted(timeouts, t)
    ensures s == t
  {
    SortedIsUnique(timeouts, s, t);
  }

  lemma {:induction false} SortedIsUnique(timeouts: seq<int>, s: seq<nat>, t: seq<nat>)
    requires InRange(s, |timeouts|) && InRange(t, |timeouts|) && Sorted(timeouts, s) && Sorted(timeouts, t)
    requires |s| == |t| && forall k :: k in s <==> k in t
    ensures s == t
  {
    if s != [] {
      assert s[0] in t;
      assert t[0] in s;
      assert s[0] == t[0];
      forall k ensures k in s[1..] <==> k in t[1..] {
        assert k in s <==> k == s[0] || k in s[1..];
        assert k in t <==> k == t[0] || k in t[1..];
        assert s[0] !in s[1..] && t[0] !in t[1..];
      }
      SortedIsUnique(timeouts, s[1..], t[1..]);
    }
  }

  // ---------------------------------------------------------------------
  // The machine
  // ---------------------------------------------------------------------

  /** Waiting on the channel, holding an index before or during its hook, or about to write its report. */
  datatype Worker =
    | Waiting
    | Received(index: nat)
    | Running(index: nat)
    | Returning(index: nat, report: ScenarioReport)
    | Exited

  /** The dispatcher sends, or reports what is left as canceled, then closes the channel and joins the workers. */
  datatype Phase = Sending | Canceling | Closed | Joined

  /**
   * `position` is the next schedule entry. Per scenario: the report slot, how
   * often it was written, how often ScenarioStarted fired, and every report
   * ScenarioFinished was given.
   */
  datatype State = State(
    phase: Phase,
    position: nat,
    canceled: bool,
    workers: seq<Worker>,
    slots: seq<Option<ScenarioReport>>,
    writes: seq<nat>,
    started: seq<nat>,
    finished: seq<seq<ScenarioReport>>)

  /** The fixed inputs of one run. */
  datatype Suite = Suite(ids: seq<string>, schedule: seq<nat>, maxConcurrency: nat)

  predicate ValidSuite(s: Suite) {
    s.ids != [] && s.maxConcurrency > 0 && Permutation(s.schedule, |s.ids|)
  }

  function Initial(s: Suite): State
    requires ValidSuite(s)
  {
    var n := |s.ids|;
    State(Sending, 0, false, seq(Min(s.maxConcurrency, n), i => Waiting),
          seq(n, i => None), seq(n, i => 0), seq(n, i => 0), seq(n, i => []))
  }

  function CanceledReport(id: string): ScenarioReport {
    ScenarioReport(id, None, [], true, false)
  }

  datatype Step =
    | Cancel
    | Handoff(worker: nat)
    | NoticeCancel
    | SkipNext
    | Close
    | Enter(worker: nat)
    | Finish(worker: nat, report: ScenarioReport)
    | Write(worker: nat)
    | Exit(worker: nat)
    | Join

  /** A report RunScenario can return for this scenario once its hook started. */
  ghost predicate Produced(id: string, r: ScenarioReport) {
    exists t: Trial :: !t.canceled && ReportOf(id, t, r)
  }

  /** The report told of a scenario: its hook's, or of a cancellation if its hook never started. */
  ghost predicate Told(id: string, started: nat, r: ScenarioReport) {
    if started == 0 then r == CanceledReport(id) else started == 1 && Produced(id, r)
  }

  lemma ToldIsHonest(id: string, started: nat, r: ScenarioReport)
    requires Told(id, started, r)
    ensures r.id == id && (r.passed ==> started == 1 && Evidence(r))
  {
    if started > 0 && r.passed {
      var t: Trial :| !t.canceled && ReportOf(id, t, r);
      PassedHasEvidence(id, t, r);
    }
  }

  predicate Shaped(s: Suite, m: State) {
    && |m.slots| == |s.ids| && |m.writes| == |s.ids| && |m.started| == |s.ids| && |m.finished| == |s.ids|
    && m.position <= |s.ids|
    && (forall w :: 0 <= w < |m.workers| && Holds(m.workers[w]) ==> m.workers[w].index < |s.ids|)
  }

  /** The worker has an index in hand. */
  predicate Holds(w: Worker) {
    w.Received? || w.Running? || w.Returning?
  }

  ghost predicate Enabled(s: Suite, m: State, step: Step)
    requires ValidSuite(s) && Shaped(s, m)
  {
    match step
    case Cancel => !m.canceled
    case Handoff(w) => m.phase == Sending && m.position < |s.ids| && w < |m.workers| && m.workers[w].Waiting?
    case NoticeCancel => m.phase == Sending && m.position < |s.ids| && m.canceled
    case SkipNext => m.phase == Canceling && m.position < |s.ids|
    case Close => (m.phase == Sending || m.phase == Canceling) && m.position == |s.ids|
    case Enter(w) => w < |m.workers| && m.workers[w].Received?
    case Finish(w, r) => w < |m.workers| && m.workers[w].Running? && Produced(s.ids[m.workers[w].index], r)
    case Write(w) => w < |m.workers| && m.workers[w].Returning?
    case Exit(w) => m.phase == Closed && w < |m.workers| && m.workers[w].Waiting?
    case Join => m.phase == Closed && forall w :: 0 <= w < |m.workers| ==> m.workers[w].Exited?
  }

  function SetWorker(m: State, w: nat, worker: Worker): State
    requires w < |m.workers|
  {
    m.(workers := m.workers[w := worker])
  }

  /** ScenarioFinished is given this report. */
  function Notify(m: State, i: nat, r: ScenarioReport): State
    requires i < |m.finished|
  {
    m.(finished := m.finished[i := m.finished[i] + [r]])
  }

  function Store(m: State, i: nat, r: ScenarioReport): State
    requires i < |m.slots| == |m.writes|
  {
    m.(slots := m.slots[i := Some(r)], writes := m.writes[i := m.writes[i] + 1])
  }

  ghost function Next(s: Suite, m: State, step: Step): State
    requires ValidSuite(s) && Shaped(s, m) && Enabled(s, m, step)
  {
    match step
    case Cancel => m.(canceled := true)
    case Handoff(w) => SetWorker(m, w, Received(s.schedule[m.position])).(position := m.position + 1)
    case NoticeCancel => m.(phase := Canceling)
    case SkipNext =>
      var i := s.schedule[m.position];
      Store(Notify(m, i, CanceledReport(s.ids[i])), i, CanceledReport(s.ids[i])).(position := m.position + 1)
    case Close => m.(phase := Closed)
    case Enter(w) =>
      var i := m.workers[w].index;
      if m.canceled
      then SetWorker(Notify(m, i, CanceledReport(s.ids[i])), w, Returning(i, CanceledReport(s.ids[i])))
      else SetWorker(m, w, Running(i)).(started := m.started[i := m.started[i] + 1])
    case Finish(w, r) =>
      SetWorker(Notify(m, m.workers[w].index, r), w, Returning(m.workers[w].index, r))
    case Write(w) => SetWorker(Store(m, m.workers[w].index, m.workers[w].report), w, Waiting)
    case Exit(w) => SetWorker(m, w, Exited)
    case Join => m.(phase := Joined)
  }

  // ---------------------------------------------------------------------
  // The invariant
  // ---------------------------------------------------------------------

  /** Scenario i is with no worker and nothing has happened to it. */
  predicate Untouched(m: State, i: nat)
    requires i < |m.slots| && i < |m.writes| && i < |m.started| && i < |m.finished|
  {
    m.slots[i].None? && m.writes[i] == 0 && m.started[i] == 0 && m.finished[i] == []
  }

  /** What has happened to the scenario a worker holds. */
  ghost predicate InHand(s: Suite, m: State, w: Worker)
    requires Shaped(s, m) && Holds(w) && w.index < |s.ids|
  {
    var i := w.index;
    && m.slots[i].None? && m.writes[i] == 0
    && match w
       case Received(_) => m.started[i] == 0 && m.finished[i] == []
       case Running(_) => m.started[i] == 1 && m.finished[i] == []
       case Returning(_, r) => m.finished[i] == [r] && Told(s.ids[i], m.started[i], r)
       case _ => true
  }

  /** The slot was written once, with the one report ScenarioFinished was given. */
  ghost predicate Settled(s: Suite, m: State, i: nat)
    requires Shaped(s, m) && i < |s.ids|
  {
    && m.slots[i].Some? && m.writes[i] == 1
    && m.finished[i] == [m.slots[i].value] && Told(s.ids[i], m.started[i], m.slots[i].value)
  }

  ghost predicate InSomeHand(m: State, i: nat) {
    exists w :: 0 <= w < |m.workers| && Holds(m.workers[w]) && m.workers[w].index == i
  }

  ghost predicate WorkersOk(s: Suite, m: State)
    requires Shaped(s, m)
  {
    && |m.workers| == Min(s.maxConcurrency, |s.ids|)
    && (forall w :: 0 <= w < |m.workers| && Holds(m.workers[w]) ==> InHand(s, m, m.workers[w]))
    && (forall v, w :: 0 <= v < w < |m.workers| && Holds(m.workers[v]) && Holds(m.workers[w]) ==>
          m.workers[v].index != m.workers[w].index)
    && (forall w :: 0 <= w < |m.workers| && m.workers[w].Exited? ==> m.phase == Closed || m.phase == Joined)
  }

  ghost predicate Inv(s: Suite, m: State)
    requires ValidSuite(s)
  {
    && Shaped(s, m) && WorkersOk(s, m)
    && (forall p :: m.position <= p < |s.ids| ==> Untouched(m, s.schedule[p]) && !InSomeHand(m, s.schedule[p]))
    && (forall p :: 0 <= p < m.position ==> InSomeHand(m, s.schedule[p]) || Settled(s, m, s.schedule[p]))
    && (m.phase == Closed || m.phase == Joined ==> m.position == |s.ids|)
    && (m.phase == Canceling ==> m.canceled)
    && (m.phase == Joined ==> forall w :: 0 <= w < |m.workers| ==> m.workers[w].Exited?)
  }

  lemma InitialHolds(s: Suite)
    requires ValidSuite(s)
    ensures Inv(s, Initial(s))
  {
  }

  // ---------------------------------------------------------------------
  // Every step keeps it
  // ---------------------------------------------------------------------

  lemma HandoffWorkers(s: Suite, m: State, w: nat)
    requires ValidSuite(s) && Inv(s, m) && Enabled(s, m, Handoff(w))
    ensures Shaped(s, Next(s, m, Handoff(w))) && WorkersOk(s, Next(s, m, Handoff(w)))
  {
    var n, i := Next(s, m, Handoff(w)), s.schedule[m.position];
    assert !InSomeHand(m, i) && Untouched(m, i);
    forall v | 0 <= v < |n.workers| && Holds(n.workers[v]) ensures InHand(s, n, n.workers[v]) {
      if v != w {
        assert InHand(s, m, m.workers[v]);
      }
    }
  }

  lemma HandoffHands(s: Suite, m: State, w: nat, k: nat)
    requires ValidSuite(s) && Shaped(s, m) && Enabled(s, m, Handoff(w))
    ensures InSomeHand(Next(s, m, Handoff(w)), k) <==> InSomeHand(m, k) || k == s.schedule[m.position]
  {
    var n := Next(s, m, Handoff(w));
    assert Holds(n.workers[w]) && n.workers[w].index == s.schedule[m.position];
    if InSomeHand(m, k) {
      var v :| 0 <= v < |m.workers| && Holds(m.workers[v]) && m.workers[v].index == k;
      assert n.workers[v] == m.workers[v];
    }
  }

  lemma HandoffKeeps(s: Suite, m: State, w: nat)
    requires ValidSuite(s) && Inv(s, m) && Enabled(s, m, Handoff(w))
    ensures Inv(s, Next(s, m, Handoff(w)))
  {
    var n := Next(s, m, Handoff(w));
    HandoffWorkers(s, m, w);
    forall p | 0 <= p < |s.ids|
      ensures p >= n.position ==> Untouched(n, s.schedule[p]) && !InSomeHand(n, s.schedule[p])
      ensures p < n.position ==> InSomeHand(n, s.schedule[p]) || Settled(s, n, s.schedule[p])
    {
      HandoffHands(s, m, w, s.schedule[p]);
      if p != m.position {
        OthersKept(s, m, n, s.schedule[m.position], s.schedule[p]);
      }
    }
  }

  lemma SkipKeeps(s: Suite, m: State)
    requires ValidSuite(s) && Inv(s, m) && Enabled(s, m, SkipNext)
    ensures Inv(s, Next(s, m, SkipNext))
  {
    var n := Next(s, m, SkipNext);
    var i := s.schedule[m.position];
    assert !InSomeHand(m, i) && Untouched(m, i);
    assert forall k :: InSomeHand(n, k) <==> InSomeHand(m, k);
    forall p | 0 <= p < n.position ensures InSomeHand(n, s.schedule[p]) || Settled(s, n, s.schedule[p]) {
      assert p < m.position ==> s.schedule[p] != i;
    }
  }

  /** What happened to every scenario but i is the same in both states. */
  predicate SameBut(m: State, n: State, i: nat)
    requires |m.slots| == |m.writes| == |m.started| == |m.finished|
    requires |n.slots| == |n.writes| == |n.started| == |n.finished| == |m.slots|
  {
    forall k: nat :: k < |m.slots| && k != i ==>
      n.slots[k] == m.slots[k] && n.writes[k] == m.writes[k] && n.started[k] == m.started[k] && n.finished[k] == m.finished[k]
  }

  lemma HandsKept(m: State, w: nat, worker: Worker, k: nat)
    requires w < |m.workers| && Holds(m.workers[w])
    requires !(Holds(worker) && worker.index == m.workers[w].index) ==> k != m.workers[w].index && !Holds(worker)
    ensures InSomeHand(SetWorker(m, w, worker), k) <==> InSomeHand(m, k)
  {
    var n := SetWorker(m, w, worker);
    if InSomeHand(m, k) {
      var v :| 0 <= v < |m.workers| && Holds(m.workers[v]) && m.workers[v].index == k;
      assert Holds(n.workers[v]) && n.workers[v].index == k;
    }
    if InSomeHand(n, k) {
      var v :| 0 <= v < |n.workers| && Holds(n.workers[v]) && n.workers[v].index == k;
      assert Holds(m.workers[v]) && m.workers[v].index == k;
    }
  }

  lemma WorkersKept(s: Suite, m: State, n: State, w: nat)
    requires ValidSuite(s) && Shaped(s, m) && WorkersOk(s, m) && w < |m.workers| && Holds(m.workers[w])
    requires Shaped(s, n) && |n.workers| == |m.workers| && n.workers == m.workers[w := n.workers[w]] && n.phase == m.phase
    requires SameBut(m, n, m.workers[w].index) && !n.workers[w].Exited?
    requires Holds(n.workers[w]) ==> n.workers[w].index == m.workers[w].index && InHand(s, n, n.workers[w])
    ensures WorkersOk(s, n)
  {
    forall v | 0 <= v < |n.workers| && Holds(n.workers[v]) ensures InHand(s, n, n.workers[v]) {
      if v != w {
        assert InHand(s, m, m.workers[v]);
      }
    }
  }

  lemma OthersKept(s: Suite, m: State, n: State, i: nat, k: nat)
    requires Shaped(s, m) && Shaped(s, n) && SameBut(m, n, i) && k < |s.ids| && k != i
    ensures Untouched(m, k) <==> Untouched(n, k)
    ensures Settled(s, m, k) <==> Settled(s, n, k)
  {
  }

  /** A worker moves on while keeping its index. */
  lemma KeepsHand(s: Suite, m: State, n: State, w: nat)
    requires ValidSuite(s) && Inv(s, m) && w < |m.workers| && Holds(m.workers[w])
    requires Shaped(s, n) && |n.workers| == |m.workers| && n.workers == m.workers[w := n.workers[w]]
    requires n.phase == m.phase && n.position == m.position && n.canceled == m.canceled && m.phase != Joined
    requires Holds(n.workers[w]) && n.workers[w].index == m.workers[w].index && InHand(s, n, n.workers[w])
    requires SameBut(m, n, m.workers[w].index)
    ensures Inv(s, n)
  {
    var i := m.workers[w].index;
    assert InSomeHand(m, i);
    WorkersKept(s, m, n, w);
    forall p | 0 <= p < |s.ids|
      ensures InSomeHand(n, s.schedule[p]) <==> InSomeHand(m, s.schedule[p])
      ensures p >= n.position ==> Untouched(n, s.schedule[p])
      ensures p < n.position ==> InSomeHand(n, s.schedule[p]) || Settled(s, n, s.schedule[p])
    {
      SameHands(m, n, w, s.schedule[p]);
      if s.schedule[p] != i {
        OthersKept(s, m, n, i, s.schedule[p]);
      }
    }
  }

  lemma SameHands(m: State, n: State, w: nat, k: nat)
    requires w < |m.workers| == |n.workers| && n.workers == m.workers[w := n.workers[w]] && Holds(m.workers[w])
    requires !(Holds(n.workers[w]) && n.workers[w].index == m.workers[w].index) ==> k != m.workers[w].index && !Holds(n.workers[w])
    ensures InSomeHand(n, k) <==> InSomeHand(m, k)
  {
    HandsKept(m, w, n.workers[w], k);
    assert InSomeHand(SetWorker(m, w, n.workers[w]), k) <==> InSomeHand(n, k);
  }

  lemma WriteKeeps(s: Suite, m: State, w: nat)
    requires ValidSuite(s) && Inv(s, m) && Enabled(s, m, Write(w))
    ensures Inv(s, Next(s, m, Write(w)))
  {
    var n := Next(s, m, Write(w));
    var i := m.workers[w].index;
    assert InSomeHand(m, i) && InHand(s, m, m.workers[w]);
    assert Settled(s, n, i);
    WorkersKept(s, m, n, w);
    forall p | 0 <= p < |s.ids|
      ensures p >= n.position ==> Untouched(n, s.schedule[p]) && !InSomeHand(n, s.schedule[p])
      ensures p < n.position ==> InSomeHand(n, s.schedule[p]) || Settled(s, n, s.schedule[p])
    {
      if s.schedule[p] != i {
        SameHands(m, n, w, s.schedule[p]);
        OthersKept(s, m, n, i, s.schedule[p]);
      }
    }
  }

  lemma ExitKeeps(s: Suite, m: State, w: nat)
    requires ValidSuite(s) && Inv(s, m) && Enabled(s, m, Exit(w))
    ensures Inv(s, Next(s, m, Exit(w)))
  {
    var n := Next(s, m, Exit(w));
    forall k | InSomeHand(m, k) ensures InSomeHand(n, k) {
      var v :| 0 <= v < |m.workers| && Holds(m.workers[v]) && m.workers[v].index == k;
      assert n.workers[v] == m.workers[v];
    }
  }

  lemma EnterKeeps(s: Suite, m: State, w: nat)
    requires ValidSuite(s) && Inv(s, m) && Enabled(s, m, Enter(w))
    ensures Inv(s, Next(s, m, Enter(w)))
  {
    assert InHand(s, m, m.workers[w]);
    KeepsHand(s, m, Next(s, m, Enter(w)), w);
  }

  lemma FinishKeeps(s: Suite, m: State, w: nat, r: ScenarioReport)
    requires ValidSuite(s) && Inv(s, m) && Enabled(s, m, Finish(w, r))
    ensures Inv(s, Next(s, m, Finish(w, r)))
  {
    assert InHand(s, m, m.workers[w]);
    KeepsHand(s, m, Next(s, m, Finish(w, r)), w);
  }

  lemma PhaseKeeps(s: Suite, m: State, step: Step)
    requires ValidSuite(s) && Inv(s, m) && Enabled(s, m, step)
    requires step.Cancel? || step.NoticeCancel? || step.Close? || step.Join?
    ensures Inv(s, Next(s, m, step))
  {
    var n := Next(s, m, step);
    assert forall k :: InSomeHand(n, k) <==> InSomeHand(m, k);
    forall p | 0 <= p < |s.ids|
      ensures Untouched(m, s.schedule[p]) <==> Untouched(n, s.schedule[p])
      ensures Settled(s, m, s.schedule[p]) <==> Settled(s, n, s.schedule[p])
    {
    }
    forall w | 0 <= w < |n.workers| && Holds(n.workers[w]) ensures InHand(s, n, n.workers[w]) {
      assert InHand(s, m, m.workers[w]);
    }
  }

  /** The invariant is inductive, whatever goroutine moves and whenever cancellation comes. */
  lemma StepKeepsInv(s: Suite, m: State, step: Step)
    requires ValidSuite(s) && Inv(s, m) && Enabled(s, m, step)
    ensures Inv(s, Next(s, m, step))
  {
    match step {
      case Handoff(w) => HandoffKeeps(s, m, w);
      case SkipNext => SkipKeeps(s, m);
      case Enter(w) => EnterKeeps(s, m, w);
      case Finish(w, r) => FinishKeeps(s, m, w, r);
      case Write(w) => WriteKeeps(s, m, w);
      case Exit(w) => ExitKeeps(s, m, w);
      case _ => PhaseKeeps(s, m, step);
    }
  }

  // ---------------------------------------------------------------------
  // Whole runs
  // ---------------------------------------------------------------------

  /** `n` is reached from `m` by these steps. */
  ghost predicate Reaches(s: Suite, m: State, steps: seq<Step>, n: State)
    requires ValidSuite(s)
    decreases |steps|
  {
    if steps == [] then m == n
    else Shaped(s, m) && Enabled(s, m, steps[0]) && Reaches(s, Next(s, m, steps[0]), steps[1..], n)
  }

  lemma {:induction false} RunKeepsInv(s: Suite, m: State, steps: seq<Step>, n: State)
    requires ValidSuite(s) && Inv(s, m) && Reaches(s, m, steps, n)
    ensures Inv(s, n)
    decreases |steps|
  {
    if steps != [] {
      StepKeepsInv(s, m, steps[0]);
      RunKeepsInv(s, Next(s, m, steps[0]), steps[1..], n);
    }
  }

  /**
   * In every interleaving, when run returns, each slot was written exactly once,
   * and ScenarioFinished fired exactly once for each scenario, with that very
   * report: its hook's if its hook started, a cancellation otherwise.
   */
  lemma EveryScenarioReportedOnce(s: Suite, steps: seq<Step>, n: State, i: nat)
    requires ValidSuite(s) && Reaches(s, Initial(s), steps, n) && n.phase == Joined && i < |s.ids|
    ensures |n.slots| == |s.ids| && |n.writes| == |s.ids| && |n.finished| == |s.ids| && |n.started| == |s.ids|
    ensures n.slots[i].Some? && n.writes[i] == 1 && n.finished[i] == [n.slots[i].value] && n.started[i] <= 1
    ensures n.slots[i].value.id == s.ids[i] && (n.slots[i].value.passed ==> Evidence(n.slots[i].value))
    ensures if n.started[i] == 0 then n.slots[i].value == CanceledReport(s.ids[i])
            else exists t: Trial :: !t.canceled && ReportOf(s.ids[i], t, n.slots[i].value)
  {
    InitialHolds(s);
    RunKeepsInv(s, Initial(s), steps, n);
    assert i in s.schedule;
    var p :| 0 <= p < |s.schedule| && s.schedule[p] == i;
    assert !InSomeHand(n, i);
    ToldIsHonest(s.ids[i], n.started[i], n.slots[i].value);
  }

  /** The report a hook's run ended with is the one the suite shows for it, whatever happens in between. */
  lemma FinishedReportIsShown(s: Suite, before: seq<Step>, m: State, w: nat, r: ScenarioReport, after: seq<Step>, n: State)
    requires ValidSuite(s) && Reaches(s, Initial(s), before, m)
    requires Shaped(s, m) && Enabled(s, m, Finish(w, r))
    requires Reaches(s, Next(s, m, Finish(w, r)), after, n) && n.phase == Joined
    ensures var i := m.workers[w].index; i < |n.slots| && n.slots[i] == Some(r)
  {
    InitialHolds(s);
    RunKeepsInv(s, Initial(s), before, m);
    StepKeepsInv(s, m, Finish(w, r));
    FinishNotifies(s, m, w, r);
    NotificationsStay(s, Next(s, m, Finish(w, r)), after, n, m.workers[w].index);
    RunKeepsInv(s, Next(s, m, Finish(w, r)), after, n);
    JoinedShowsNotified(s, n, m.workers[w].index);
  }

  lemma FinishNotifies(s: Suite, m: State, w: nat, r: ScenarioReport)
    requires ValidSuite(s) && Inv(s, m) && Enabled(s, m, Finish(w, r))
    ensures Next(s, m, Finish(w, r)).finished[m.workers[w].index] == [r]
  {
    assert InHand(s, m, m.workers[w]);
  }

  lemma JoinedShowsNotified(s: Suite, n: State, i: nat)
    requires ValidSuite(s) && Inv(s, n) && n.phase == Joined && i < |s.ids|
    ensures n.slots[i].Some? && n.finished[i] == [n.slots[i].value]
  {
    assert i in s.schedule;
    var p :| 0 <= p < |s.schedule| && s.schedule[p] == i;
    assert !InSomeHand(n, i);
  }

  lemma NotificationStays(s: Suite, m: State, step: Step, i: nat)
    requires ValidSuite(s) && Inv(s, m) && Enabled(s, m, step) && i < |s.ids| && m.finished[i] != []
    ensures Shaped(s, Next(s, m, step)) && Next(s, m, step).finished[i] == m.finished[i]
  {
    StepKeepsInv(s, m, step);
    match step {
      case SkipNext => assert Untouched(m, s.schedule[m.position]);
      case Enter(w) => assert InHand(s, m, m.workers[w]);
      case Finish(w, _) => assert InHand(s, m, m.workers[w]);
      case _ =>
    }
  }

  lemma {:induction false} NotificationsStay(s: Suite, m: State, steps: seq<Step>, n: State, i: nat)
    requires ValidSuite(s) && Inv(s, m) && Reaches(s, m, steps, n) && i < |s.ids| && m.finished[i] != []
    ensures Shaped(s, n) && n.finished[i] == m.finished[i]
    decreases |steps|
  {
    if steps != [] {
      StepKeepsInv(s, m, steps[0]);
      NotificationStays(s, m, steps[0], i);
      NotificationsStay(s, Next(s, m, steps[0]), steps[1..], n, i);
    }
  }

  /** At no moment of any run has a slot been written twice or a scenario been reported twice. */
  lemma NeverReportedTwice(s: Suite, steps: seq<Step>, n: State, i: nat)
    requires ValidSuite(s) && Reaches(s, Initial(s), steps, n) && i < |s.ids|
    ensures |n.writes| == |s.ids| && |n.finished| == |s.ids| && |n.started| == |s.ids|
    ensures n.writes[i] <= 1 && |n.finished[i]| <= 1 && n.started[i] <= 1
    ensures n.writes[i] <= |n.finished[i]|
  {
    InitialHolds(s);
    RunKeepsInv(s, Initial(s), steps, n);
    assert i in s.schedule;
    var p :| 0 <= p < |s.schedule| && s.schedule[p] == i;
    if p < n.position && InSomeHand(n, i) {
      var w :| 0 <= w < |n.workers| && Holds(n.workers[w]) && n.workers[w].index == i;
      assert InHand(s, n, n.workers[w]);
    }
  }

  /** Scenarios whose hook has started and not finished. */
  function InFlight(m: State): set<nat>
    requires |m.started| == |m.finished|
  {
    set i | 0 <= i < |m.started| && m.started[i] == 1 && m.finished[i] == []
  }

  function RunningIndexes(workers: seq<Worker>): set<nat> {
    set w | 0 <= w < |workers| && workers[w].Running? :: workers[w].index
  }

  lemma {:induction false} RunningAreFew(workers: seq<Worker>)
    ensures |RunningIndexes(workers)| <= |workers|
  {
    if workers != [] {
      var init, last := workers[..|workers| - 1], workers[|workers| - 1];
      RunningAreFew(init);
      assert RunningIndexes(workers) == RunningIndexes(init) + (if last.Running? then {last.index} else {});
    }
  }

  lemma InFlightIsRunning(s: Suite, m: State, i: nat)
    requires ValidSuite(s) && Inv(s, m) && i in InFlight(m)
    ensures i in RunningIndexes(m.workers)
  {
    assert i in s.schedule;
    var p :| 0 <= p < |s.schedule| && s.schedule[p] == i;
    var w :| 0 <= w < |m.workers| && Holds(m.workers[w]) && m.workers[w].index == i;
    assert InHand(s, m, m.workers[w]);
  }

  /** At every moment at most maxConcurrency hooks are in flight. */
  lemma ConcurrencyIsBounded(s: Suite, steps: seq<Step>, n: State)
    requires ValidSuite(s) && Reaches(s, Initial(s), steps, n)
    ensures |n.started| == |n.finished| && |InFlight(n)| <= s.maxConcurrency
  {
    InitialHolds(s);
    RunKeepsInv(s, Initial(s), steps, n);
    forall i | i in InFlight(n) ensures i in RunningIndexes(n.workers) {
      InFlightIsRunning(s, n, i);
    }
    RunningAreFew(n.workers);
    assert RunningIndexes(n.workers) == InFlight(n) + (RunningIndexes(n.workers) - InFlight(n));
  }

  // ---------------------------------------------------------------------
  // Progress
  // ---------------------------------------------------------------------

  /** While run has not returned, some goroutine can move. */
  lemma NeverStuck(s: Suite, m: State) returns (step: Step)
    requires ValidSuite(s) && Inv(s, m) && m.phase != Joined
    ensures Enabled(s, m, step) && step != Cancel
  {
    if w: nat :| w < |m.workers| && Holds(m.workers[w]) {
      match m.workers[w] {
        case Received(_) => step := Enter(w);
        case Running(i) =>
          assert ReportOf(s.ids[i], Trial(false, None, false, false, None, false), CanceledReport(s.ids[i]));
          step := Finish(w, CanceledReport(s.ids[i]));
        case Returning(_, _) => step := Write(w);
      }
    } else if m.phase == Canceling {
      step := if m.position < |s.ids| then SkipNext else Close;
    } else if m.phase == Sending {
      step := if m.position < |s.ids| then Handoff(0) else Close;
    } else if w: nat :| w < |m.workers| && m.workers[w].Waiting? {
      step := Exit(w);
    } else {
      step := Join;
    }
  }

  function Effort(w: Worker): nat {
    match w
    case Exited => 0
    case Waiting => 1
    case Returning(_, _) => 2
    case Running(_) => 3
    case Received(_) => 4
  }

  function TotalEffort(workers: seq<Worker>): nat {
    if workers == [] then 0 else Effort(workers[0]) + TotalEffort(workers[1..])
  }

  lemma {:induction false} EffortAfterUpdate(workers: seq<Worker>, w: nat, worker: Worker)
    requires w < |workers|
    ensures TotalEffort(workers[w := worker]) == TotalEffort(workers) - Effort(workers[w]) + Effort(worker)
  {
    if w > 0 {
      EffortAfterUpdate(workers[1..], w - 1, worker);
      assert workers[w := worker][1..] == workers[1..][w - 1 := worker];
    } else {
      assert workers[0 := worker][1..] == workers[1..];
    }
  }

  function PhaseEffort(p: Phase): nat {
    match p
    case Sending => 3
    case Canceling => 2
    case Closed => 1
    case Joined => 0
  }

  /** What is left to do: five units per undispatched scenario, plus workers, phase and a cancellation to come. */
  function Remaining(s: Suite, m: State): nat
    requires m.position <= |s.ids|
  {
    5 * (|s.ids| - m.position) + TotalEffort(m.workers) + PhaseEffort(m.phase) + (if m.canceled then 0 else 1)
  }

  /** A worker that moves on has less left to do. */
  lemma WorkerShrinks(s: Suite, m: State, n: State, w: nat)
    requires m.position <= |s.ids| && w < |m.workers| == |n.workers| && n.workers == m.workers[w := n.workers[w]]
    requires n.position == m.position && n.phase == m.phase && n.canceled == m.canceled
    requires Effort(n.workers[w]) < Effort(m.workers[w])
    ensures Remaining(s, n) < Remaining(s, m)
  {
    EffortAfterUpdate(m.workers, w, n.workers[w]);
  }

  lemma StepShrinks(s: Suite, m: State, step: Step)
    requires ValidSuite(s) && Inv(s, m) && Enabled(s, m, step)
    ensures Next(s, m, step).position <= |s.ids| && Remaining(s, Next(s, m, step)) < Remaining(s, m)
  {
    match step {
      case Handoff(w) => EffortAfterUpdate(m.workers, w, Received(s.schedule[m.position]));
      case Enter(w) => WorkerShrinks(s, m, Next(s, m, step), w);
      case Finish(w, r) => WorkerShrinks(s, m, Next(s, m, step), w);
      case Write(w) => WorkerShrinks(s, m, Next(s, m, step), w);
      case Exit(w) => WorkerShrinks(s, m, Next(s, m, step), w);
      case _ =>
    }
  }

  lemma {:induction false} RunIsBounded(s: Suite, m: State, steps: seq<Step>, n: State)
    requires ValidSuite(s) && Inv(s, m) && Reaches(s, m, steps, n)
    ensures n.position <= |s.ids| && |steps| + Remaining(s, n) <= Remaining(s, m)
    decreases |steps|
  {
    if steps != [] {
      StepKeepsInv(s, m, steps[0]);
      StepShrinks(s, m, steps[0]);
      RunIsBounded(s, Next(s, m, steps[0]), steps[1..], n);
    }
  }

  /** Every run ends: with hooks that return, run returns after at most six steps per scenario and four more. */
  lemma EveryRunEnds(s: Suite, steps: seq<Step>, n: State)
    requires ValidSuite(s) && Reaches(s, Initial(s), steps, n)
    ensures |steps| <= 6 * |s.ids| + 4
    ensures n.phase != Joined ==> exists step :: Shaped(s, n) && Enabled(s, n, step) && step != Cancel
  {
    InitialHolds(s);
    RunKeepsInv(s, Initial(s), steps, n);
    RunIsBounded(s, Initial(s), steps, n);
    WaitingEffort(Initial(s).workers);
    if n.phase != Joined {
      var step := NeverStuck(s, n);
    }
  }

  lemma {:induction false} WaitingEffort(workers: seq<Worker>)
    requires forall w :: 0 <= w < |workers| ==> workers[w] == Waiting
    ensures TotalEffort(workers) == |workers|
  {
    if workers != [] {
      WaitingEffort(workers[1..]);
    }
  }

  // ---------------------------------------------------------------------
  // The suite verdict
  // ---------------------------------------------------------------------

  /** The suite passes exactly when every scenario passed. */
  method SuiteVerdict(reports: seq<ScenarioReport>) returns (passed: bool)
    ensures passed <==> forall i :: 0 <= i < |reports| ==> reports[i].passed
  {
    passed := true;
    for i := 0 to |reports|
      invariant passed <==> forall k :: 0 <= k < i ==> reports[k].passed
    {
      passed := passed && reports[i].passed;
    }
  }

  /** The report lists scenarios in declaration order; a passed suite carries evidence for every claim of each. */
  lemma PassedSuiteHasEvidence(s: Suite, steps: seq<Step>, n: State, reports: seq<ScenarioReport>)
    requires ValidSuite(s) && Reaches(s, Initial(s), steps, n) && n.phase == Joined
    requires |reports| == |s.ids| && |n.slots| == |s.ids| && forall i :: 0 <= i < |reports| ==> n.slots[i] == Some(reports[i])
    ensures forall i :: 0 <= i < |reports| ==> reports[i].id == s.ids[i]
    ensures (forall i :: 0 <= i < |reports| ==> reports[i].passed) ==>
              forall i :: 0 <= i < |reports| ==> Evidence(reports[i])
  {
    forall i: nat | i < |reports| ensures reports[i].id == s.ids[i] && (reports[i].passed ==> Evidence(reports[i])) {
      EveryScenarioReportedOnce(s, steps, n, i);
    }
  }
}
