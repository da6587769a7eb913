/** Which sessions the task history keeps. */
module Retention {
  import opened Wrappers
  import opened Strings
  import opened Sorting

  datatype SessionStatus =
    | Draft | Planning | AwaitingApproval | Executing | Validating | Reviewing | Repairing
    | WaitingForPermission | Paused
    | Completed | Failed | Aborted | Rejected | Interrupted

  /** `content` stands for the summaries that retention and writing never look into. */
  datatype Session = Session(
    id: string,
    createdAt: string,
    updatedAt: string,
    status: SessionStatus,
    workflowId: Option<string>,
    interrupted: bool,
    content: string)

  predicate Terminal(s: Session) {
    s.status in {Completed, Failed, Aborted, Rejected, Interrupted}
  }

  predicate Active(s: Session) {
    !Terminal(s)
  }

  /** Most recently updated first, then most recently created, then by id. */
  predicate Recent(a: Session, b: Session) {
    || Before(b.updatedAt, a.updatedAt)
    || (a.updatedAt == b.updatedAt && Before(b.createdAt, a.createdAt))
    || (a.updatedAt == b.updatedAt && a.createdAt == b.createdAt && Before(a.id, b.id))
  }

  predicate DistinctIds(xs: seq<Session>) {
    forall i, j :: 0 <= i < j < |xs| ==> xs[i].id != xs[j].id
  }

  predicate HasId(xs: seq<Session>, id: string) {
    exists x <- xs :: x.id == id
  }

  function Replace(xs: seq<Session>, s: Session): seq<Session> {
    if xs == [] then [] else [if xs[0].id == s.id then s else xs[0]] + Replace(xs[1..], s)
  }

  /** `[...new Map(xs.map((s) => [s.id, s])).values()]`: first position, last value. */
  function Unique(xs: seq<Session>): seq<Session> {
    if xs == [] then []
    else
      var last := xs[|xs| - 1];
      var init := Unique(xs[..|xs| - 1]);
      if HasId(init, last.id) then Replace(init, last) else init + [last]
  }

  function Take(xs: seq<Session>, n: nat): seq<Session> {
    if n <= |xs| then xs[..n] else xs
  }

  /** The terminal sessions that fit beside the active ones, most recent first. */
  function KeptTerminal(xs: seq<Session>, maxSessions: int): seq<Session> {
    Take(Sort(Select(Unique(xs), Terminal), Recent), Max(0, maxSessions - |Select(Unique(xs), Active)|))
  }

  function Retain(xs: seq<Session>, maxSessions: int): seq<Session> {
    Sort(Sort(Select(Unique(xs), Active), Recent) + KeptTerminal(xs, maxSessions), Recent)
  }

  // The order.

  lemma RecentIsOrder()
    ensures StrictOrder(Recent) && WeakOrder(Recent)
  {
    forall x: Session ensures !Recent(x, x) {
      BeforeIrreflexive(x.updatedAt);
      BeforeIrreflexive(x.createdAt);
      BeforeIrreflexive(x.id);
    }
    forall x: Session, y: Session, z: Session | Recent(x, y) && Recent(y, z) ensures Recent(x, z) {
      RecentTransitive(x, y, z);
    }
    forall x: Session, y: Session, z: Session | !Recent(y, x) && !Recent(z, y) ensures !Recent(z, x) {
      RecentTotal(x, y);
      RecentTotal(y, z);
      if Recent(z, x) {
        if Recent(x, y) { RecentTransitive(z, x, y); }
      }
    }
  }

  lemma RecentTransitive(x: Session, y: Session, z: Session)
    requires Recent(x, y) && Recent(y, z)
    ensures Recent(x, z)
  {
    if Before(y.updatedAt, x.updatedAt) && Before(z.updatedAt, y.updatedAt) {
      BeforeTransitive(z.updatedAt, y.updatedAt, x.updatedAt);
    } else if Before(y.createdAt, x.createdAt) && Before(z.createdAt, y.createdAt) {
      BeforeTransitive(z.createdAt, y.createdAt, x.createdAt);
    } else if Before(x.id, y.id) && Before(y.id, z.id) {
      BeforeTransitive(x.id, y.id, z.id);
    }
  }

  /** Sessions the order cannot tell apart agree on all three keys. */
  lemma RecentTotal(x: Session, y: Session)
    ensures Recent(x, y) || Recent(y, x) || (x.updatedAt == y.updatedAt && x.createdAt == y.createdAt && x.id == y.id)
  {
    BeforeTotal(x.updatedAt, y.updatedAt);
    BeforeTotal(x.createdAt, y.createdAt);
    BeforeTotal(x.id, y.id);
  }

  // Unique ids.

  lemma {:induction false} ReplaceIds(xs: seq<Session>, s: Session)
    ensures |Replace(xs, s)| == |xs|
    ensures forall i :: 0 <= i < |xs| ==> Replace(xs, s)[i] == if xs[i].id == s.id then s else xs[i]
  {
    if xs == [] { return; }
    ReplaceIds(xs[1..], s);
  }

  lemma {:induction false} UniqueIds(xs: seq<Session>)
    ensures DistinctIds(Unique(xs))
    ensures forall x <- Unique(xs) :: x in xs
    ensures forall id :: HasId(Unique(xs), id) <==> HasId(xs, id)
    decreases |xs|
  {
    if xs == [] { return; }
    var last, front := xs[|xs| - 1], xs[..|xs| - 1];
    var init := Unique(front);
    UniqueIds(front);
    ReplaceIds(init, last);
    assert xs == front + [last];
    forall id ensures HasId(Unique(xs), id) <==> HasId(xs, id) {
      UniqueHasId(front, last, id);
    }
  }

  lemma UniqueHasId(front: seq<Session>, last: Session, id: string)
    requires HasId(Unique(front), id) <==> HasId(front, id)
    ensures HasId(Unique(front + [last]), id) <==> HasId(front + [last], id)
  {
    hide Replace;
    var xs := front + [last];
    assert xs[..|xs| - 1] == front && xs[|xs| - 1] == last;
    var init := Unique(front);
    ReplaceIds(init, last);
    assert HasId(xs, id) <==> HasId(front, id) || last.id == id by {
      assert last in xs;
    }
    if HasId(init, last.id) {
      var k :| 0 <= k < |init| && init[k].id == last.id;
      assert Replace(init, last)[k] == last;
      if HasId(init, id) {
        var j :| 0 <= j < |init| && init[j].id == id;
        assert Replace(init, last)[j].id == id;
      }
      if HasId(Replace(init, last), id) {
        var j :| 0 <= j < |init| && Replace(init, last)[j].id == id;
        assert init[j].id == id;
      }
    } else {
      assert last in init + [last];
    }
  }

  lemma {:induction false} UniqueOfDistinct(xs: seq<Session>)
    requires DistinctIds(xs)
    ensures Unique(xs) == xs
    decreases |xs|
  {
    if xs == [] { return; }
    UniqueOfDistinct(xs[..|xs| - 1]);
    assert xs == xs[..|xs| - 1] + [xs[|xs| - 1]];
  }

  // What retention keeps.

  lemma SortStrict(xs: seq<Session>)
    requires DistinctIds(xs)
    ensures StrictlySorted(Sort(xs, Recent), Recent) && DistinctIds(Sort(xs, Recent))
  {
    var sorted := Sort(xs, Recent);
    RecentIsOrder();
    SortSorted(xs, Recent);
    SortPermutes(xs, Recent);
    PermutationDistinct(xs, sorted);
    forall i, j | 0 <= i < j < |sorted| ensures Recent(sorted[i], sorted[j]) {
      RecentTotal(sorted[i], sorted[j]);
    }
  }

  lemma {:induction false} PermutationDistinct(xs: seq<Session>, ys: seq<Session>)
    requires DistinctIds(xs) && multiset(xs) == multiset(ys)
    ensures DistinctIds(ys)
  {
    forall i, j | 0 <= i < j < |ys| ensures ys[i].id != ys[j].id {
      assert ys[i] in multiset(xs) && ys[j] in multiset(xs);
      var a :| 0 <= a < |xs| && xs[a] == ys[i];
      var b :| 0 <= b < |xs| && xs[b] == ys[j];
      if a == b {
        TwiceIn(ys, i, j);
        OnceIn(xs, xs[a]);
      }
    }
  }

  lemma {:induction false} SelectDistinct(xs: seq<Session>, keep: Session -> bool)
    requires DistinctIds(xs)
    ensures DistinctIds(Select(xs, keep))
  {
    if xs == [] { return; }
    SelectDistinct(xs[1..], keep);
    forall x | x in Select(xs[1..], keep) ensures x.id != xs[0].id {
      var k :| 0 <= k < |xs[1..]| && xs[1..][k] == x;
      assert xs[k + 1] == x;
    }
  }

  lemma SameIdSame(xs: seq<Session>, x: Session, y: Session)
    requires DistinctIds(xs) && x in xs && y in xs && x.id == y.id
    ensures x == y
  {
    var i :| 0 <= i < |xs| && xs[i] == x;
    var j :| 0 <= j < |xs| && xs[j] == y;
    assert i == j;
  }

  function SortedActive(xs: seq<Session>): seq<Session> {
    Sort(Select(Unique(xs), Active), Recent)
  }

  function SortedTerminal(xs: seq<Session>): seq<Session> {
    Sort(Select(Unique(xs), Terminal), Recent)
  }

  lemma PartsOf(xs: seq<Session>, maxSessions: int)
    ensures StrictlySorted(SortedActive(xs), Recent) && StrictlySorted(SortedTerminal(xs), Recent)
    ensures |SortedActive(xs)| == |Select(Unique(xs), Active)|
    ensures forall s :: s in SortedActive(xs) <==> s in Unique(xs) && Active(s)
    ensures forall s :: s in SortedTerminal(xs) <==> s in Unique(xs) && Terminal(s)
    ensures DistinctIds(SortedActive(xs) + KeptTerminal(xs, maxSessions))
  {
    UniqueIds(xs);
    var u := Unique(xs);
    SelectDistinct(u, Active);
    SelectDistinct(u, Terminal);
    SortStrict(Select(u, Active));
    SortStrict(Select(u, Terminal));
    SortPermutes(Select(u, Active), Recent);
    SortPermutes(Select(u, Terminal), Recent);
    var a, t := SortedActive(xs), KeptTerminal(xs, maxSessions);
    forall i, j | 0 <= i < |a| && 0 <= j < |t| ensures a[i].id != t[j].id {
      assert a[i] in a && t[j] in SortedTerminal(xs);
      if a[i].id == t[j].id { SameIdSame(u, a[i], t[j]); }
    }
  }

  /** The terminal sessions kept are the most recent ones, as many as fit beside the active ones. */
  ghost predicate KeepsMostRecent(xs: seq<Session>, maxSessions: int, kept: seq<Session>) {
    var u := Unique(xs);
    var quota := Max(0, maxSessions - |Select(u, Active)|);
    && |Select(kept, Terminal)| == (if |Select(u, Terminal)| < quota then |Select(u, Terminal)| else quota)
    && (forall s, t :: s in kept && Terminal(s) && t in u && Terminal(t) && t !in kept ==> Recent(s, t))
  }

  lemma RetainedElements(xs: seq<Session>, maxSessions: int)
    ensures StrictlySorted(Retain(xs, maxSessions), Recent) && DistinctIds(Retain(xs, maxSessions))
    ensures forall s :: s in Retain(xs, maxSessions) <==>
      (s in Unique(xs) && Active(s)) || s in KeptTerminal(xs, maxSessions)
    ensures |Select(Retain(xs, maxSessions), Active)| == |Select(Unique(xs), Active)|
    ensures |Select(Retain(xs, maxSessions), Terminal)| == |KeptTerminal(xs, maxSessions)|
  {
    PartsOf(xs, maxSessions);
    var a, t := SortedActive(xs), KeptTerminal(xs, maxSessions);
    SortStrict(a + t);
    SortPermutes(a + t, Recent);
    RetainedCounts(a, t, Retain(xs, maxSessions));
  }

  lemma KeptAreMostRecent(xs: seq<Session>, maxSessions: int, s: Session, r: Session)
    requires s in KeptTerminal(xs, maxSessions) && r in SortedTerminal(xs) && r !in KeptTerminal(xs, maxSessions)
    ensures Recent(s, r)
  {
    PartsOf(xs, maxSessions);
    var t, all := KeptTerminal(xs, maxSessions), SortedTerminal(xs);
    var i :| 0 <= i < |t| && t[i] == s;
    var j :| 0 <= j < |all| && all[j] == r;
    assert all[i] == s && j >= |t|;
  }

  lemma RetainedExactly(xs: seq<Session>, maxSessions: int)
    ensures var kept := Retain(xs, maxSessions);
      && StrictlySorted(kept, Recent) && DistinctIds(kept)
      && (forall s <- kept :: s in Unique(xs))
      && (forall s <- Unique(xs) :: Active(s) ==> s in kept)
      && |Select(kept, Active)| == |Select(Unique(xs), Active)|
      && KeepsMostRecent(xs, maxSessions, kept)
  {
    PartsOf(xs, maxSessions);
    RetainedElements(xs, maxSessions);
    SortPermutes(Select(Unique(xs), Terminal), Recent);
    var kept, t, all := Retain(xs, maxSessions), KeptTerminal(xs, maxSessions), SortedTerminal(xs);
    assert forall s <- t :: s in all;
    forall s, r | s in kept && Terminal(s) && r in Unique(xs) && Terminal(r) && r !in kept ensures Recent(s, r) {
      KeptAreMostRecent(xs, maxSessions, s, r);
    }
  }

  lemma RetainedCounts(a: seq<Session>, t: seq<Session>, kept: seq<Session>)
    requires multiset(kept) == multiset(a + t)
    requires (forall s <- a :: Active(s)) && (forall s <- t :: Terminal(s))
    ensures |Select(kept, Active)| == |a| && |Select(kept, Terminal)| == |t|
  {
    hide Select;
    SelectLength(kept, a + t, Active);
    SelectLength(kept, a + t, Terminal);
    SelectAppend(a, t, Active);
    SelectAppend(a, t, Terminal);
    assert forall i :: 0 <= i < |a| ==> a[i] in a;
    assert forall i :: 0 <= i < |t| ==> t[i] in t;
    SelectAll(a, Active);
    SelectNone(t, Active);
    SelectNone(a, Terminal);
    SelectAll(t, Terminal);
    assert a + [] == a && [] + t == t;
  }

  /** No later session of the list has its id. */
  ghost predicate Latest(xs: seq<Session>, s: Session) {
    exists i :: 0 <= i < |xs| && xs[i] == s && forall j :: i < j < |xs| ==> xs[j].id != s.id
  }

  lemma LatestSnoc(xs: seq<Session>, last: Session, s: Session)
    ensures Latest(xs + [last], s) <==> s == last || (s.id != last.id && Latest(xs, s))
  {
    var all := xs + [last];
    assert all[|xs|] == last;
    if Latest(all, s) && s != last {
      var i :| 0 <= i < |all| && all[i] == s && forall j :: i < j < |all| ==> all[j].id != s.id;
      assert xs[i] == s && forall j :: i < j < |xs| ==> all[j] == xs[j];
    }
    if Latest(xs, s) && s.id != last.id {
      var i :| 0 <= i < |xs| && xs[i] == s && forall j :: i < j < |xs| ==> xs[j].id != s.id;
      assert all[i] == s && forall j :: i < j < |xs| ==> all[j] == xs[j];
    }
  }

  lemma ReplaceElements(xs: seq<Session>, last: Session, s: Session)
    requires DistinctIds(xs) && HasId(xs, last.id)
    ensures s in Replace(xs, last) <==> s == last || (s.id != last.id && s in xs)
  {
    ReplaceIds(xs, last);
    var k :| 0 <= k < |xs| && xs[k].id == last.id;
    assert Replace(xs, last)[k] == last;
    if s in xs && s.id != last.id {
      var j :| 0 <= j < |xs| && xs[j] == s;
      assert Replace(xs, last)[j] == s;
    }
  }

  /** Of the sessions of one id the last one counts. */
  lemma {:induction false} UniqueIsLatest(xs: seq<Session>, s: Session)
    ensures s in Unique(xs) <==> Latest(xs, s)
    decreases |xs|
  {
    hide Replace, Latest;
    if xs == [] {
      assert !Latest(xs, s) by { NoneLatest(s); }
      return;
    }
    var last, front := xs[|xs| - 1], xs[..|xs| - 1];
    UniqueIsLatest(front, s);
    UniqueIds(front);
    assert xs == front + [last];
    LatestSnoc(front, last, s);
    if HasId(Unique(front), last.id) { ReplaceElements(Unique(front), last, s); }
  }

  lemma NoneLatest(s: Session)
    ensures !Latest([], s)
  {
  }

  predicate NotOlder(s: Session, t: Session) {
    !Before(s.updatedAt, t.updatedAt)
  }

  lemma RecentNotOlder(s: Session, t: Session)
    requires Recent(s, t)
    ensures NotOlder(s, t)
  {
    BeforeIrreflexive(s.updatedAt);
    if Before(s.updatedAt, t.updatedAt) && Before(t.updatedAt, s.updatedAt) {
      BeforeTransitive(s.updatedAt, t.updatedAt, s.updatedAt);
    }
  }

  /**
   * Every active session is kept as it was last given; no terminal session is dropped that was updated later than a
   * kept one, and the list goes from the newest to the oldest update.
   */
  lemma NewestAreKept(xs: seq<Session>, maxSessions: int)
    ensures var kept := Retain(xs, maxSessions);
      && (forall s <- kept :: Latest(xs, s))
      && (forall s :: Latest(xs, s) && Active(s) ==> s in kept)
      && (forall s, t :: s in kept && Terminal(s) && Latest(xs, t) && t !in kept ==> NotOlder(s, t))
      && (forall i, j :: 0 <= i < j < |kept| ==> NotOlder(kept[i], kept[j]))
  {
    hide Retain, Unique, Latest, Recent, NotOlder;
    RetainedExactly(xs, maxSessions);
    forall s ensures s in Unique(xs) <==> Latest(xs, s) { UniqueIsLatest(xs, s); }
    forall s, t | Recent(s, t) ensures NotOlder(s, t) { RecentNotOlder(s, t); }
  }

  /** Sorted, without repeated ids, and no terminal session beyond the bound. */
  ghost predicate Retained(xs: seq<Session>, maxSessions: int) {
    && StrictlySorted(xs, Recent) && DistinctIds(xs)
    && (|Select(xs, Terminal)| == 0 || |Select(xs, Active)| + |Select(xs, Terminal)| <= maxSessions)
  }

  lemma RetainRetains(xs: seq<Session>, maxSessions: int)
    ensures Retained(Retain(xs, maxSessions), maxSessions)
  {
    RetainedExactly(xs, maxSessions);
  }

  lemma AllTerminalFit(xs: seq<Session>, maxSessions: int)
    requires Retained(xs, maxSessions)
    ensures Unique(xs) == xs && KeptTerminal(xs, maxSessions) == SortedTerminal(xs)
  {
    hide Sort, Select, Unique, StrictlySorted, DistinctIds;
    UniqueOfDistinct(xs);
    var terminal, quota := Select(xs, Terminal), Max(0, maxSessions - |Select(xs, Active)|);
    SortPermutes(terminal, Recent);
    TakeAll(Sort(terminal, Recent), quota);
  }

  lemma TakeAll(xs: seq<Session>, n: nat)
    requires |xs| <= n
    ensures Take(xs, n) == xs
  {
  }

  lemma SameElements(xs: seq<Session>, maxSessions: int)
    requires Unique(xs) == xs && KeptTerminal(xs, maxSessions) == SortedTerminal(xs)
    ensures forall s :: s in Retain(xs, maxSessions) <==> s in xs
  {
    PartsOf(xs, maxSessions);
    RetainedElements(xs, maxSessions);
  }

  lemma RetainedIsKept(xs: seq<Session>, maxSessions: int)
    requires Retained(xs, maxSessions)
    ensures Retain(xs, maxSessions) == xs
  {
    AllTerminalFit(xs, maxSessions);
    SameElements(xs, maxSessions);
    RetainRetains(xs, maxSessions);
    RecentIsOrder();
    StrictlySortedUnique(Retain(xs, maxSessions), xs, Recent);
  }

  /** Exactly the retained lists are left alone. */
  lemma RetainFixpoint(xs: seq<Session>, maxSessions: int)
    ensures Retain(xs, maxSessions) == xs <==> Retained(xs, maxSessions)
  {
    RetainRetains(xs, maxSessions);
    if Retained(xs, maxSessions) { RetainedIsKept(xs, maxSessions); }
  }

  lemma RetainIdempotent(xs: seq<Session>, maxSessions: int)
    ensures Retain(Retain(xs, maxSessions), maxSessions) == Retain(xs, maxSessions)
  {
    RetainRetains(xs, maxSessions);
    RetainFixpoint(Retain(xs, maxSessions), maxSessions);
  }

  /** Removing terminal sessions leaves a retained list retained. */
  lemma RemovalRetained(xs: seq<Session>, keep: Session -> bool, maxSessions: int)
    requires Retained(xs, maxSessions)
    requires forall s <- xs :: Active(s) ==> keep(s)
    ensures Retained(Select(xs, keep), maxSessions)
  {
    SelectSorted(xs, keep, Recent);
    SelectDistinct(xs, keep);
    SelectTwice(xs, keep, Terminal);
    SelectActives(xs, keep);
  }

  lemma {:induction false} SelectTwice(xs: seq<Session>, keep: Session -> bool, also: Session -> bool)
    ensures |Select(Select(xs, keep), also)| <= |Select(xs, also)|
  {
    if xs == [] { return; }
    SelectTwice(xs[1..], keep, also);
    if keep(xs[0]) {
      assert ([xs[0]] + Select(xs[1..], keep))[1..] == Select(xs[1..], keep);
    } else {
      assert [] + Select(xs[1..], keep) == Select(xs[1..], keep);
    }
  }

  lemma {:induction false} SelectActives(xs: seq<Session>, keep: Session -> bool)
    requires forall s <- xs :: Active(s) ==> keep(s)
    ensures Select(Select(xs, keep), Active) == Select(xs, Active)
  {
    if xs == [] { return; }
    SelectActives(xs[1..], keep);
    assert xs[0] in xs;
    if keep(xs[0]) {
      assert ([xs[0]] + Select(xs[1..], keep))[1..] == Select(xs[1..], keep);
    } else {
      assert [] + Select(xs[1..], keep) == Select(xs[1..], keep);
    }
  }

  /** A retained list that is not shortened by a new bound is retained under it. */
  lemma SameLengthSame(xs: seq<Session>, oldMax: int, newMax: int)
    requires Retained(xs, oldMax) && |Retain(xs, newMax)| == |xs|
    ensures Retained(xs, newMax)
  {
    UniqueOfDistinct(xs);
    RetainedExactly(xs, newMax);
    SelectSplit(xs);
    SelectSplit(Retain(xs, newMax));
  }

  lemma {:induction false} SelectSplit(xs: seq<Session>)
    ensures |Select(xs, Active)| + |Select(xs, Terminal)| == |xs|
  {
    if xs == [] { return; }
    SelectSplit(xs[1..]);
  }
}
