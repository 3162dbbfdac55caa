/**
 * The toolset request stream: calls and health pings, consumer groups with
 * their last-delivered ID and pending list, the backlog bound and the trim that
 * follows every append (registry/bounded_publish.go:99-169).
 */
module RequestStream {
  import opened Basics
  import opened StreamIds

  /** A stream entry; `call` tells a tool call from a health ping. */
  datatype Item = Item(id: Id, call: bool)

  /** The pending list is kept in ID order, as Redis keeps it. */
  datatype Group = Group(last: Id, pending: seq<Id>)

  datatype Stream = Stream(items: seq<Item>, last: Id, groups: seq<Group>)

  const EMPTY := Stream([], ZERO, [])

  predicate SortedItems(items: seq<Item>) {
    forall i, j :: 0 <= i < j < |items| ==> Before(items[i].id, items[j].id)
  }

  predicate SortedIds(ids: seq<Id>) {
    forall i, j :: 0 <= i < j < |ids| ==> Before(ids[i], ids[j])
  }

  predicate Holds(items: seq<Item>, id: Id) {
    exists i :: 0 <= i < |items| && items[i].id == id
  }

  predicate GroupOk(s: Stream, g: Group) {
    && AtOrBefore(g.last, s.last)
    && SortedIds(g.pending)
    && (forall p :: p in g.pending ==> AtOrBefore(p, g.last) && Holds(s.items, p))
  }

  predicate Inv(s: Stream) {
    && SortedItems(s.items)
    && (forall i :: 0 <= i < |s.items| ==> AtOrBefore(s.items[i].id, s.last))
    && (forall g :: 0 <= g < |s.groups| ==> GroupOk(s, s.groups[g]))
  }

  /** The group still has to work on this ID: unread or delivered but not acknowledged. */
  predicate Open(g: Group, id: Id) {
    Before(g.last, id) || id in g.pending
  }

  function Count(items: seq<Item>, p: Item -> bool): nat {
    if items == [] then 0
    else (if p(items[0]) then 1 else 0) + Count(items[1..], p)
  }

  /** Entries after the group's last-delivered ID. */
  function Unread(items: seq<Item>, g: Group): nat {
    Count(items, (i: Item) => Before(g.last, i.id))
  }

  /** Calls the group has outstanding: unread plus pending. */
  function OpenCalls(items: seq<Item>, g: Group): nat {
    Count(items, (i: Item) => i.call && Open(g, i.id))
  }

  // ---------------------------------------------------------------------
  // The script
  // ---------------------------------------------------------------------

  /** Largest backlog over the groups, counting at most bound + 1 unread entries of each. */
  function GroupBacklog(items: seq<Item>, groups: seq<Group>, bound: nat): nat {
    if groups == [] then 0
    else
      var g := groups[|groups| - 1];
      Max(GroupBacklog(items, groups[..|groups| - 1], bound),
          Min(Unread(items, g), bound + 1) + |g.pending|)
  }

  function Backlog(s: Stream, bound: nat): nat {
    if s.groups == [] then |s.items| else GroupBacklog(s.items, s.groups, bound)
  }

  predicate Full(s: Stream, bound: nat) {
    bound > 0 && Backlog(s, bound) >= bound
  }

  /** Where a group's unfinished work begins: its earliest pending ID, or its last-delivered ID. */
  function Candidate(g: Group): Id {
    if g.pending != [] then g.pending[0] else g.last
  }

  function TrimId(groups: seq<Group>): Option<Id> {
    if groups == [] then None
    else
      var c := Candidate(groups[|groups| - 1]);
      match TrimId(groups[..|groups| - 1])
      case None => Some(c)
      case Some(t) => if Before(c, t) then Some(c) else Some(t)
  }

  /** Approximate MINID trimming: Redis reclaims some of the entries below the bound. */
  function Trim(items: seq<Item>, bound: Option<Id>, reclaimed: set<Id>): seq<Item> {
    if items == [] then []
    else
      (if bound.Some? && Before(items[0].id, bound.value) && items[0].id in reclaimed
       then [] else [items[0]]) + Trim(items[1..], bound, reclaimed)
  }

  function Append(s: Stream, call: bool, now: nat, reclaimed: set<Id>): Stream {
    var id := NextId(s.last, now);
    s.(items := Trim(s.items + [Item(id, call)], TrimId(s.groups), reclaimed), last := id)
  }

  // ---------------------------------------------------------------------
  // Runs
  // ---------------------------------------------------------------------

  datatype Op =
    | Call(now: nat, reclaimed: set<Id>)
    | Ping(now: nat, reclaimed: set<Id>)
    | Deliver(group: nat)
    | Ack(group: nat, id: Id)
    | NewGroup

  function FirstAfter(items: seq<Item>, last: Id): Option<Id> {
    if items == [] then None
    else if Before(last, items[0].id) then Some(items[0].id)
    else FirstAfter(items[1..], last)
  }

  function Without(ids: seq<Id>, id: Id): seq<Id> {
    if ids == [] then []
    else (if ids[0] == id then [] else [ids[0]]) + Without(ids[1..], id)
  }

  function DeliverTo(s: Stream, g: Group): Group {
    match FirstAfter(s.items, g.last)
    case None => g
    case Some(id) => Group(id, g.pending + [id])
  }

  function Step(s: Stream, op: Op, bound: nat): Stream {
    match op
    case Call(now, reclaimed) => if Full(s, bound) then s else Append(s, true, now, reclaimed)
    case Ping(now, reclaimed) => Append(s, false, now, reclaimed)
    case Deliver(g) =>
      if g < |s.groups| then s.(groups := s.groups[g := DeliverTo(s, s.groups[g])]) else s
    case Ack(g, id) =>
      if g < |s.groups|
      then s.(groups := s.groups[g := s.groups[g].(pending := Without(s.groups[g].pending, id))])
      else s
    case NewGroup => s.(groups := s.groups + [Group(s.last, [])])
  }

  function Run(s: Stream, ops: seq<Op>, bound: nat): Stream
    decreases |ops|
  {
    if ops == [] then s else Run(Step(s, ops[0], bound), ops[1..], bound)
  }

  // ---------------------------------------------------------------------
  // Order facts
  // ---------------------------------------------------------------------

  lemma {:induction false} TrimIdIsLeast(groups: seq<Group>, g: nat)
    requires g < |groups|
    ensures TrimId(groups).Some? && AtOrBefore(TrimId(groups).value, Candidate(groups[g]))
  {
    var n := |groups| - 1;
    if g < n {
      TrimIdIsLeast(groups[..n], g);
    }
  }

  /** The bound is some group's: the group furthest behind decides. */
  lemma {:induction false} TrimIdIsAGroups(groups: seq<Group>)
    ensures TrimId(groups).None? <==> groups == []
    ensures TrimId(groups).Some? ==> exists g: nat :: g < |groups| && Candidate(groups[g]) == TrimId(groups).value
  {
    if groups != [] {
      var n := |groups| - 1;
      TrimIdIsAGroups(groups[..n]);
      if TrimId(groups).value != Candidate(groups[n]) {
        var g: nat :| g < n && Candidate(groups[..n][g]) == TrimId(groups).value;
        assert Candidate(groups[g]) == TrimId(groups).value;
      } else {
        assert Candidate(groups[n]) == TrimId(groups).value;
      }
    }
  }

  lemma {:induction false} TrimIsExact(items: seq<Item>, bound: Option<Id>, reclaimed: set<Id>, it: Item)
    ensures it in Trim(items, bound, reclaimed) <==>
            it in items && !(bound.Some? && Before(it.id, bound.value) && it.id in reclaimed)
  {
    if items != [] {
      TrimIsExact(items[1..], bound, reclaimed, it);
    }
  }

  /** The group has finished with this ID and with everything before it, and has moved past it. */
  predicate Past(g: Group, id: Id) {
    if g.pending == [] then Before(id, g.last) else forall p :: p in g.pending ==> Before(id, p)
  }

  /** An append removes exactly what Redis reclaims among the entries that every group is past. */
  lemma AppendTrimsExactly(s: Stream, call: bool, now: nat, reclaimed: set<Id>, it: Item)
    requires Inv(s)
    ensures var n := Append(s, call, now, reclaimed);
            it in n.items <==>
            (it in s.items || it == Item(n.last, call)) &&
            !(it.id in reclaimed && s.groups != [] && forall g :: 0 <= g < |s.groups| ==> Past(s.groups[g], it.id))
  {
    var t := TrimId(s.groups);
    TrimIsExact(s.items + [Item(NextId(s.last, now), call)], t, reclaimed, it);
    TrimIdIsAGroups(s.groups);
    forall g | 0 <= g < |s.groups|
      ensures Past(s.groups[g], it.id) <==> Before(it.id, Candidate(s.groups[g]))
      ensures AtOrBefore(t.value, Candidate(s.groups[g]))
    {
      TrimIdIsLeast(s.groups, g);
      PastIsBeforeCandidate(s, g, it.id);
    }
  }

  lemma PastIsBeforeCandidate(s: Stream, g: nat, id: Id)
    requires Inv(s) && g < |s.groups|
    ensures Past(s.groups[g], id) <==> Before(id, Candidate(s.groups[g]))
  {
    var group := s.groups[g];
    assert GroupOk(s, group);
    if group.pending != [] && Before(id, group.pending[0]) {
      forall p | p in group.pending ensures Before(id, p) {
        var i :| 0 <= i < |group.pending| && group.pending[i] == p;
        assert i == 0 || Before(group.pending[0], p);
      }
    }
  }

  lemma {:induction false} TrimKeeps(items: seq<Item>, bound: Option<Id>, reclaimed: set<Id>)
    requires SortedItems(items)
    ensures var t := Trim(items, bound, reclaimed);
            && SortedItems(t)
            && (forall i :: 0 <= i < |t| ==> t[i] in items)
            && (forall it :: it in items && !(bound.Some? && Before(it.id, bound.value)) ==> it in t)
  {
    if items != [] {
      TrimKeeps(items[1..], bound, reclaimed);
      var t, rest := Trim(items, bound, reclaimed), Trim(items[1..], bound, reclaimed);
      assert forall i :: 0 <= i < |rest| ==> rest[i] in items[1..];
      forall i, j | 0 <= i < j < |t| ensures Before(t[i].id, t[j].id) {
        if t != rest && i == 0 {
          assert t[j] == rest[j - 1] && rest[j - 1] in items[1..];
        }
      }
    }
  }

  /** Nothing a group still has to work on lies below the trim bound. */
  lemma OpenIsAboveTrim(s: Stream, g: nat, id: Id)
    requires Inv(s) && g < |s.groups| && Open(s.groups[g], id)
    ensures !Before(id, TrimId(s.groups).value)
    ensures TrimId(s.groups).Some?
  {
    TrimIdIsLeast(s.groups, g);
    var group := s.groups[g];
    if id in group.pending {
      var i :| 0 <= i < |group.pending| && group.pending[i] == id;
      assert i == 0 || Before(group.pending[0], id);
    } else if group.pending != [] {
      assert group.pending[0] in group.pending;
    }
  }

  lemma AppendKeepsOpen(s: Stream, call: bool, now: nat, reclaimed: set<Id>, g: nat, id: Id)
    requires Inv(s) && g < |s.groups| && Open(s.groups[g], id) && Holds(s.items, id)
    ensures Holds(Append(s, call, now, reclaimed).items, id)
  {
    var all := s.items + [Item(NextId(s.last, now), call)];
    AppendSorted(s, call, now);
    TrimKeeps(all, TrimId(s.groups), reclaimed);
    OpenIsAboveTrim(s, g, id);
    var i :| 0 <= i < |s.items| && s.items[i].id == id;
    assert all[i] in all;
    var t := Append(s, call, now, reclaimed).items;
    assert all[i] in t;
    var j :| 0 <= j < |t| && t[j] == all[i];
  }

  lemma AppendSorted(s: Stream, call: bool, now: nat)
    requires Inv(s)
    ensures SortedItems(s.items + [Item(NextId(s.last, now), call)])
  {
  }

  lemma {:induction false} FirstAfterIsNext(items: seq<Item>, last: Id)
    requires SortedItems(items)
    ensures match FirstAfter(items, last)
            case None => forall i :: 0 <= i < |items| ==> !Before(last, items[i].id)
            case Some(id) =>
              && Before(last, id) && Holds(items, id)
              && forall i :: 0 <= i < |items| && Before(items[i].id, id) ==> !Before(last, items[i].id)
  {
    if items != [] {
      FirstAfterIsNext(items[1..], last);
      assert items == [items[0]] + items[1..];
      var f := FirstAfter(items, last);
      if f.Some? {
        if Before(last, items[0].id) {
          assert items[0].id == f.value;
        } else {
          var i :| 0 <= i < |items[1..]| && items[1..][i].id == f.value;
          assert items[i + 1].id == f.value;
        }
      }
    }
  }

  lemma {:induction false} WithoutKeeps(ids: seq<Id>, id: Id)
    requires SortedIds(ids)
    ensures var w := Without(ids, id);
            && SortedIds(w)
            && (forall p :: p in w <==> p in ids && p != id)
            && |w| <= |ids|
  {
    if ids != [] {
      WithoutKeeps(ids[1..], id);
      assert ids == [ids[0]] + ids[1..];
      var w, rest := Without(ids, id), Without(ids[1..], id);
      forall i, j | 0 <= i < j < |w| ensures Before(w[i], w[j]) {
        if w != rest && i == 0 {
          assert w[j] == rest[j - 1] && rest[j - 1] in ids[1..];
        }
      }
    }
  }

  // ---------------------------------------------------------------------
  // Trim safety
  // ---------------------------------------------------------------------

  lemma AppendKeepsInv(s: Stream, call: bool, now: nat, reclaimed: set<Id>)
    requires Inv(s)
    ensures Inv(Append(s, call, now, reclaimed))
  {
    var n := Append(s, call, now, reclaimed);
    var all := s.items + [Item(NextId(s.last, now), call)];
    AppendSorted(s, call, now);
    TrimKeeps(all, TrimId(s.groups), reclaimed);
    forall i | 0 <= i < |n.items| ensures AtOrBefore(n.items[i].id, n.last) {
      assert n.items[i] in all;
    }
    forall g | 0 <= g < |n.groups| ensures GroupOk(n, n.groups[g]) {
      assert GroupOk(s, s.groups[g]);
      forall p | p in n.groups[g].pending ensures Holds(n.items, p) {
        AppendKeepsOpen(s, call, now, reclaimed, g, p);
      }
    }
  }

  lemma DeliverKeepsInv(s: Stream, g: nat)
    requires Inv(s) && g < |s.groups|
    ensures GroupOk(s, DeliverTo(s, s.groups[g]))
  {
    var group := s.groups[g];
    FirstAfterIsNext(s.items, group.last);
    var n := DeliverTo(s, group);
    if n != group {
      var i :| 0 <= i < |s.items| && s.items[i].id == n.last;
      forall i, j | 0 <= i < j < |n.pending| ensures Before(n.pending[i], n.pending[j]) {
        if j == |n.pending| - 1 {
          assert group.pending[i] in group.pending;
        }
      }
    }
  }

  lemma StepKeepsInv(s: Stream, op: Op, bound: nat)
    requires Inv(s)
    ensures Inv(Step(s, op, bound))
  {
    match op {
      case Call(now, reclaimed) => AppendKeepsInv(s, true, now, reclaimed);
      case Ping(now, reclaimed) => AppendKeepsInv(s, false, now, reclaimed);
      case Deliver(g) => if g < |s.groups| { DeliverKeepsInv(s, g); }
      case Ack(g, id) => if g < |s.groups| { WithoutKeeps(s.groups[g].pending, id); }
      case NewGroup =>
    }
  }

  /** One step: an entry a group has yet to finish stays, unless that group acknowledges it. */
  lemma StepKeepsOpen(s: Stream, op: Op, bound: nat, g: nat, id: Id)
    requires Inv(s) && g < |s.groups| && Open(s.groups[g], id) && Holds(s.items, id)
    requires op != Ack(g, id)
    ensures var n := Step(s, op, bound);
            g < |n.groups| && Open(n.groups[g], id) && Holds(n.items, id)
  {
    match op {
      case Call(now, reclaimed) => AppendKeepsOpen(s, true, now, reclaimed, g, id);
      case Ping(now, reclaimed) => AppendKeepsOpen(s, false, now, reclaimed, g, id);
      case Deliver(d) =>
        if d == g {
          FirstAfterIsNext(s.items, s.groups[g].last);
          var i :| 0 <= i < |s.items| && s.items[i].id == id;
        }
      case Ack(d, other) =>
        if d == g {
          WithoutKeeps(s.groups[g].pending, other);
        }
      case NewGroup =>
    }
  }

  /**
   * Trim safety: on every run of publications, deliveries and acknowledgements,
   * whatever approximate trimming reclaims, an entry that some group has not
   * yet received or has pending stays in the stream until that group
   * acknowledges it.
   */
  lemma {:induction false} UnacknowledgedWorkIsNeverTrimmed(
    s: Stream, ops: seq<Op>, bound: nat, g: nat, id: Id)
    requires Inv(s) && g < |s.groups| && Open(s.groups[g], id) && Holds(s.items, id)
    requires Ack(g, id) !in ops
    ensures var n := Run(s, ops, bound);
            g < |n.groups| && Open(n.groups[g], id) && Holds(n.items, id)
    decreases |ops|
  {
    if ops != [] {
      assert ops[0] in ops;
      StepKeepsOpen(s, ops[0], bound, g, id);
      StepKeepsInv(s, ops[0], bound);
      UnacknowledgedWorkIsNeverTrimmed(Step(s, ops[0], bound), ops[1..], bound, g, id);
    }
  }

  /** A freshly appended call is unread by every group, so it is protected from its first instant. */
  lemma AppendedCallIsOpen(s: Stream, call: bool, now: nat, reclaimed: set<Id>, g: nat)
    requires Inv(s) && g < |s.groups|
    ensures var n := Append(s, call, now, reclaimed);
            n.last == NextId(s.last, now) && Open(n.groups[g], n.last) && Holds(n.items, n.last)
  {
    var item := Item(NextId(s.last, now), call);
    var all := s.items + [item];
    AppendSorted(s, call, now);
    TrimKeeps(all, TrimId(s.groups), reclaimed);
    assert GroupOk(s, s.groups[g]);
    OpenIsAboveTrim(s, g, item.id);
    assert item in all;
    var t := Append(s, call, now, reclaimed).items;
    var j :| 0 <= j < |t| && t[j] == item;
  }

  // ---------------------------------------------------------------------
  // Backlog bound
  // ---------------------------------------------------------------------

  lemma {:induction false} CountConcat(a: seq<Item>, b: seq<Item>, p: Item -> bool)
    ensures Count(a + b, p) == Count(a, p) + Count(b, p)
  {
    if a == [] {
      assert a + b == b;
    } else {
      CountConcat(a[1..], b, p);
      assert (a + b)[1..] == a[1..] + b;
    }
  }

  /** Counting is monotone in the predicate. */
  lemma {:induction false} CountMonotone(items: seq<Item>, p: Item -> bool, q: Item -> bool)
    requires forall i :: i in items && p(i) ==> q(i)
    ensures Count(items, p) <= Count(items, q)
  {
    if items != [] {
      CountMonotone(items[1..], p, q);
    }
  }

  lemma {:induction false} CountUnion(items: seq<Item>, p: Item -> bool, q: Item -> bool, r: Item -> bool)
    requires forall i :: i in items && p(i) ==> q(i) || r(i)
    ensures Count(items, p) <= Count(items, q) + Count(items, r)
  {
    if items != [] {
      CountUnion(items[1..], p, q, r);
    }
  }

  lemma {:induction false} CountNone(items: seq<Item>, p: Item -> bool)
    requires forall i :: i in items ==> !p(i)
    ensures Count(items, p) == 0
  {
    if items != [] {
      CountNone(items[1..], p);
    }
  }

  /** IDs are distinct, so at most one entry carries each. */
  lemma {:induction false} CountOneId(items: seq<Item>, id: Id)
    requires SortedItems(items)
    ensures Count(items, (i: Item) => i.id == id) <= 1
  {
    if items != [] {
      CountOneId(items[1..], id);
      if items[0].id == id {
        CountNone(items[1..], (i: Item) => i.id == id);
      }
    }
  }

  lemma {:induction false} CountInIds(items: seq<Item>, ids: seq<Id>)
    requires SortedItems(items)
    ensures Count(items, (i: Item) => i.id in ids) <= |ids|
  {
    if ids == [] {
      CountNone(items, (i: Item) => i.id in ids);
    } else {
      CountInIds(items, ids[1..]);
      CountOneId(items, ids[0]);
      CountUnion(items, (i: Item) => i.id in ids, (i: Item) => i.id == ids[0], (i: Item) => i.id in ids[1..]);
    }
  }

  /** Outstanding calls are at most what the script counts for the group. */
  lemma OpenCallsCounted(items: seq<Item>, g: Group)
    requires SortedItems(items)
    ensures OpenCalls(items, g) <= Unread(items, g) + |g.pending|
  {
    CountUnion(items, (i: Item) => i.call && Open(g, i.id),
      (i: Item) => Before(g.last, i.id), (i: Item) => i.id in g.pending);
    CountInIds(items, g.pending);
  }

  /** Trimming settled entries does not change what a group has outstanding. */
  lemma {:induction false} TrimKeepsCount(items: seq<Item>, bound: Option<Id>, reclaimed: set<Id>, p: Item -> bool)
    requires forall i :: i in items && p(i) ==> !(bound.Some? && Before(i.id, bound.value))
    ensures Count(Trim(items, bound, reclaimed), p) == Count(items, p)
  {
    if items != [] {
      TrimKeepsCount(items[1..], bound, reclaimed, p);
      var head := if bound.Some? && Before(items[0].id, bound.value) && items[0].id in reclaimed
                  then [] else [items[0]];
      CountConcat(head, Trim(items[1..], bound, reclaimed), p);
    }
  }

  /** The backlog test, read exactly: some group's unread plus pending has reached the bound. */
  predicate AtBound(s: Stream, bound: nat) {
    if s.groups == [] then |s.items| >= bound
    else exists g :: 0 <= g < |s.groups| && Unread(s.items, s.groups[g]) + |s.groups[g].pending| >= bound
  }

  lemma {:induction false} GroupBacklogReaches(items: seq<Item>, groups: seq<Group>, bound: nat)
    requires bound > 0
    ensures GroupBacklog(items, groups, bound) >= bound <==>
            exists g :: 0 <= g < |groups| && Unread(items, groups[g]) + |groups[g].pending| >= bound
  {
    if groups != [] {
      var n := |groups| - 1;
      GroupBacklogReaches(items, groups[..n], bound);
      assert forall g :: 0 <= g < n ==> groups[..n][g] == groups[g];
      if GroupBacklog(items, groups, bound) >= bound && GroupBacklog(items, groups[..n], bound) < bound {
        assert Unread(items, groups[n]) + |groups[n].pending| >= bound;
      }
    }
  }

  /** Reading at most bound + 1 unread entries decides the same comparison as the exact count. */
  lemma CappedCountIsExact(s: Stream, bound: nat)
    ensures Full(s, bound) <==> bound > 0 && AtBound(s, bound)
  {
    if bound > 0 {
      GroupBacklogReaches(s.items, s.groups, bound);
    }
  }

  predicate Bounded(s: Stream, bound: nat) {
    forall g :: 0 <= g < |s.groups| ==> OpenCalls(s.items, s.groups[g]) <= bound
  }

  lemma AppendCount(s: Stream, call: bool, now: nat, reclaimed: set<Id>, g: nat)
    requires Inv(s) && g < |s.groups|
    ensures OpenCalls(Append(s, call, now, reclaimed).items, s.groups[g]) ==
            OpenCalls(s.items, s.groups[g]) + (if call then 1 else 0)
  {
    var group, item := s.groups[g], Item(NextId(s.last, now), call);
    var p := (i: Item) => i.call && Open(group, i.id);
    var all := s.items + [item];
    assert GroupOk(s, group);
    forall i | i in all && p(i)
      ensures !(TrimId(s.groups).Some? && Before(i.id, TrimId(s.groups).value))
    {
      OpenIsAboveTrim(s, g, i.id);
    }
    TrimKeepsCount(all, TrimId(s.groups), reclaimed, p);
    CountConcat(s.items, [item], p);
    assert [item][1..] == [];
    assert Count([item], p) == if p(item) then 1 else 0;
  }

  /** One step keeps every group's outstanding calls within the bound; pings pass freely. */
  lemma StepKeepsBound(s: Stream, op: Op, bound: nat)
    requires Inv(s) && bound > 0 && Bounded(s, bound)
    ensures Bounded(Step(s, op, bound), bound)
  {
    var n := Step(s, op, bound);
    forall g: nat | g < |n.groups| ensures OpenCalls(n.items, n.groups[g]) <= bound {
      match op {
        case Call(now, reclaimed) =>
          CappedCountIsExact(s, bound);
          if !Full(s, bound) {
            AppendCount(s, true, now, reclaimed, g);
            OpenCallsCounted(s.items, s.groups[g]);
          }
        case Ping(now, reclaimed) =>
          AppendCount(s, false, now, reclaimed, g);
        case Deliver(d) =>
          if d == g {
            FirstAfterIsNext(s.items, s.groups[g].last);
            var before, after := s.groups[g], n.groups[g];
            forall i | i in s.items && i.call && Open(after, i.id) ensures Open(before, i.id) {
            }
            CountMonotone(s.items, (i: Item) => i.call && Open(after, i.id), (i: Item) => i.call && Open(before, i.id));
          }
        case Ack(d, id) =>
          if d == g {
            WithoutKeeps(s.groups[g].pending, id);
            var before, after := s.groups[g], n.groups[g];
            CountMonotone(s.items, (i: Item) => i.call && Open(after, i.id), (i: Item) => i.call && Open(before, i.id));
          }
        case NewGroup =>
          if g == |s.groups| {
            var group := n.groups[g];
            CountNone(s.items, (i: Item) => i.call && Open(group, i.id));
          }
      }
    }
  }

  /** Backlog bound: on every run no group ever has more than `bound` calls outstanding. */
  lemma {:induction false} BacklogStaysBounded(s: Stream, ops: seq<Op>, bound: nat)
    requires Inv(s) && bound > 0 && Bounded(s, bound)
    ensures Bounded(Run(s, ops, bound), bound) && Inv(Run(s, ops, bound))
    decreases |ops|
  {
    if ops != [] {
      StepKeepsBound(s, ops[0], bound);
      StepKeepsInv(s, ops[0], bound);
      BacklogStaysBounded(Step(s, ops[0], bound), ops[1..], bound);
    }
  }

  // ---------------------------------------------------------------------
  // The loops of the publication script
  // ---------------------------------------------------------------------

  /** XRANGE (last + COUNT limit, counted. */
  method CountUnread(items: seq<Item>, g: Group, limit: nat) returns (n: nat)
    ensures n == Min(Unread(items, g), limit)
  {
    n := 0;
    var i := 0;
    while i < |items| && n < limit
      invariant 0 <= i <= |items| && n <= limit
      invariant n + Unread(items[i..], g) == Unread(items, g)
    {
      if Before(g.last, items[i].id) {
        n := n + 1;
      }
      assert items[i..][1..] == items[i + 1..];
      i := i + 1;
    }
  }

  /** The largest backlog; it reaches the bound exactly when the uncapped one does. */
  method MeasureBacklog(s: Stream, bound: nat) returns (backlog: nat)
    ensures backlog == Backlog(s, bound)
    ensures bound > 0 ==> (backlog >= bound <==> AtBound(s, bound))
  {
    backlog := |s.items|;
    if |s.groups| > 0 {
      backlog := 0;
      for i := 0 to |s.groups|
        invariant backlog == GroupBacklog(s.items, s.groups[..i], bound)
      {
        var unread := CountUnread(s.items, s.groups[i], bound + 1);
        if unread + |s.groups[i].pending| > backlog {
          backlog := unread + |s.groups[i].pending|;
        }
        assert s.groups[..i + 1][..i] == s.groups[..i];
      }
      assert s.groups[..|s.groups|] == s.groups;
    }
    CappedCountIsExact(s, bound);
  }

  /** The earliest ID any group may still work on. */
  method FindTrimId(groups: seq<Group>) returns (trim: Option<Id>)
    ensures trim == TrimId(groups)
    ensures trim.None? <==> groups == []
    ensures forall g :: 0 <= g < |groups| ==> trim.Some? && AtOrBefore(trim.value, Candidate(groups[g]))
    ensures trim.Some? ==> exists g: nat :: g < |groups| && Candidate(groups[g]) == trim.value
  {
    trim := None;
    for i := 0 to |groups|
      invariant trim == TrimId(groups[..i])
      invariant trim.None? <==> i == 0
      invariant forall g :: 0 <= g < i ==> AtOrBefore(trim.value, Candidate(groups[g]))
    {
      var candidate := groups[i].last;
      if |groups[i].pending| > 0 {
        candidate := groups[i].pending[0];
      }
      if trim.None? || Before(candidate, trim.value) {
        trim := Some(candidate);
      }
      assert groups[..i + 1][..i] == groups[..i];
    }
    assert groups[..|groups|] == groups;
    TrimIdIsAGroups(groups);
  }

  lemma {:induction false} NoTrim(items: seq<Item>, reclaimed: set<Id>)
    ensures Trim(items, None, reclaimed) == items
  {
    if items != [] {
      NoTrim(items[1..], reclaimed);
    }
  }
}
