/** subscribeStream: a page subscription that exists before its token does. */
module StreamPages {
  import opened Basics

  datatype Page = Page(token: int, body: int)

  /** `got` is what the handler has received; it may detach on any delivery. */
  datatype Sub = Sub(token: Option<int>, live: bool, subscribed: bool, early: seq<Page>, got: seq<Page>)

  datatype Event = Arrive(p: Page) | Resolve(t: int) | Reject | Flush | Detach

  /** The handler's verdict after each delivery: does it detach now? */
  type Verdict = seq<Page> -> bool

  const Fresh := Sub(None, true, true, [], [])

  function Off(s: Sub): Sub {
    s.(live := false, subscribed := false)
  }

  function Handle(s: Sub, p: Page, quits: Verdict): Sub {
    var s1 := s.(got := s.got + [p]);
    if quits(s1.got) then Off(s1) else s1
  }

  function Replay(s: Sub, ps: seq<Page>, quits: Verdict): Sub
    decreases |ps|
  {
    if ps == [] || !s.live then s
    else Replay(if s.token == Some(ps[0].token) then Handle(s, ps[0], quits) else s, ps[1..], quits)
  }

  function Step(s: Sub, e: Event, quits: Verdict): Sub {
    match e
    case Arrive(p) =>
      if !s.subscribed then s
      else if s.token.None? then s.(early := s.early + [p])
      else if s.live && s.token == Some(p.token) then Handle(s, p, quits)
      else s
    case Resolve(t) => s.(token := Some(t))
    case Reject => Off(s)
    case Flush => Replay(s.(early := []), s.early, quits)
    case Detach => Off(s)
  }

  function Run(s: Sub, es: seq<Event>, quits: Verdict): Sub
    decreases |es|
  {
    if es == [] then s else Run(Step(s, es[0], quits), es[1..], quits)
  }

  class Subscription {
    var token: Option<int>
    var live: bool
    var subscribed: bool
    var early: seq<Page>
    var got: seq<Page>
    const quits: Verdict

    function View(): Sub
      reads this
    {
      Sub(token, live, subscribed, early, got)
    }

    constructor (quits: Verdict)
      ensures View() == Fresh && this.quits == quits
    {
      token, live, subscribed, early, got := None, true, true, [], [];
      this.quits := quits;
    }

    method Unsubscribe()
      modifies this`live, this`subscribed
      ensures View() == Off(old(View()))
    {
      live := false;
      subscribed := false;
    }

    method Deliver(p: Page)
      modifies this`got, this`live, this`subscribed
      ensures View() == Handle(old(View()), p, quits)
    {
      got := got + [p];
      if quits(got) {
        Unsubscribe();
      }
    }

    method OnPage(p: Page)
      modifies this
      ensures View() == Step(old(View()), Arrive(p), quits)
    {
      if !subscribed {
        return;
      }
      if token.None? {
        early := early + [p];
        return;
      }
      if live && p.token == token.value {
        Deliver(p);
      }
    }

    method OnToken(t: int)
      modifies this`token
      ensures View() == Step(old(View()), Resolve(t), quits)
    {
      token := Some(t);
    }

    /** The buffered pages replay in order until the handler detaches. */
    method FlushEarly()
      modifies this
      ensures View() == Step(old(View()), Flush, quits)
    {
      var ps := early;
      early := [];
      var i := 0;
      while i < |ps| && live
        invariant 0 <= i <= |ps|
        invariant Replay(View(), ps[i..], quits) == Step(old(View()), Flush, quits)
      {
        if token == Some(ps[i].token) {
          Deliver(ps[i]);
        }
        i := i + 1;
      }
    }
  }

  // ---------- the ideal stream ----------

  predicate Quiet(es: seq<Event>) {
    forall e | e in es :: e.Arrive? || e.Detach?
  }

  predicate NoArrivals(es: seq<Event>) {
    forall e | e in es :: e.Detach?
  }

  /** The pages of one token that arrive before any detach, in order. */
  function Own(es: seq<Event>, t: int): seq<Page> {
    if es == [] || es[0].Detach? then []
    else (if es[0].Arrive? && es[0].p.token == t then [es[0].p] else []) + Own(es[1..], t)
  }

  /** Each page once, in order, until the handler quits. */
  function UntilQuit(got: seq<Page>, ps: seq<Page>, quits: Verdict): seq<Page>
    decreases |ps|
  {
    if ps == [] then got
    else if quits(got + [ps[0]]) then got + [ps[0]]
    else UntilQuit(got + [ps[0]], ps[1..], quits)
  }

  function Arrived(es: seq<Event>): seq<Page> {
    if es == [] || es[0].Detach? then []
    else (if es[0].Arrive? then [es[0].p] else []) + Arrived(es[1..])
  }

  function OwnPages(ps: seq<Page>, t: int): seq<Page> {
    if ps == [] then [] else (if ps[0].token == t then [ps[0]] else []) + OwnPages(ps[1..], t)
  }

  lemma {:induction false} OwnArrived(es: seq<Event>, t: int)
    ensures OwnPages(Arrived(es), t) == Own(es, t)
  {
    if es != [] && !es[0].Detach? {
      OwnArrived(es[1..], t);
      if es[0].Arrive? {
        assert ([es[0].p] + Arrived(es[1..]))[1..] == Arrived(es[1..]);
      } else {
        assert Arrived(es) == Arrived(es[1..]) && Own(es, t) == Own(es[1..], t);
      }
    }
  }

  /** Once detached, quiet events change nothing. */
  lemma {:induction false} DetachedStays(s: Sub, es: seq<Event>, quits: Verdict)
    requires !s.subscribed && !s.live && Quiet(es)
    ensures Run(s, es, quits) == s
    decreases |es|
  {
    if es != [] {
      assert es[0] in es;
      DetachedStays(s, es[1..], quits);
    }
  }

  /** Before the token every page is buffered, until a detach. */
  lemma {:induction false} EarlyBuffers(s: Sub, es: seq<Event>, quits: Verdict)
    requires s.token.None? && s.live && s.subscribed && Quiet(es)
    ensures Run(s, es, quits) ==
            var r := s.(early := s.early + Arrived(es)); if Detach in es then Off(r) else r
    decreases |es|
  {
    if es != [] {
      assert es[0] in es;
      var s1 := Step(s, es[0], quits);
      if es[0].Detach? {
        DetachedStays(s1, es[1..], quits);
        assert Arrived(es) == [] && s.early + [] == s.early;
      } else {
        assert Detach in es <==> Detach in es[1..];
        EarlyBuffers(s1, es[1..], quits);
        assert (s.early + [es[0].p]) + Arrived(es[1..]) == s.early + Arrived(es);
      }
    }
  }

  // ---------- quitting ----------

  /** The handler quits on one of these pages. */
  predicate QuitsIn(got: seq<Page>, ps: seq<Page>, quits: Verdict)
    decreases |ps|
  {
    ps != [] && (quits(got + [ps[0]]) || QuitsIn(got + [ps[0]], ps[1..], quits))
  }

  lemma {:induction false} UntilQuitSplits(got: seq<Page>, ps: seq<Page>, more: seq<Page>, quits: Verdict)
    ensures UntilQuit(got, ps, quits) == got + ps || QuitsIn(got, ps, quits)
    ensures UntilQuit(got, ps + more, quits) ==
            if QuitsIn(got, ps, quits) then UntilQuit(got, ps, quits) else UntilQuit(got + ps, more, quits)
    decreases |ps|
  {
    if ps == [] {
      assert ps + more == more && got + ps == got;
    } else {
      assert (ps + more)[0] == ps[0] && (ps + more)[1..] == ps[1..] + more;
      assert got + [ps[0]] + ps[1..] == got + ps;
      UntilQuitSplits(got + [ps[0]], ps[1..], more, quits);
    }
  }

  // ---------- each stretch of a run ----------

  lemma {:induction false} ReplayDelivers(s: Sub, ps: seq<Page>, quits: Verdict)
    requires s.live && s.subscribed && s.token.Some?
    ensures var own := OwnPages(ps, s.token.value);
            var l := !QuitsIn(s.got, own, quits);
            Replay(s, ps, quits) == s.(got := UntilQuit(s.got, own, quits), live := l, subscribed := l)
    decreases |ps|
  {
    if ps != [] {
      var rest := OwnPages(ps[1..], s.token.value);
      if ps[0].token == s.token.value {
        var s1 := Handle(s, ps[0], quits);
        assert ([ps[0]] + rest)[1..] == rest;
        if s1.live {
          ReplayDelivers(s1, ps[1..], quits);
        }
      } else {
        assert OwnPages(ps, s.token.value) == rest;
        ReplayDelivers(s, ps[1..], quits);
      }
    }
  }

  /** A live stream delivers its own arrivals as they come, up to the detach. */
  lemma {:induction false} LiveDelivers(s: Sub, es: seq<Event>, quits: Verdict)
    requires s.live && s.subscribed && s.token.Some? && Quiet(es)
    ensures var own := Own(es, s.token.value);
            var l := Detach !in es && !QuitsIn(s.got, own, quits);
            Run(s, es, quits) == s.(got := UntilQuit(s.got, own, quits), live := l, subscribed := l)
    decreases |es|
  {
    if es != [] {
      assert es[0] in es;
      assert Detach in es <==> es[0] == Detach || Detach in es[1..];
      var s1 := Step(s, es[0], quits);
      var rest := Own(es[1..], s.token.value);
      if es[0].Arrive? && es[0].p.token == s.token.value {
        assert ([es[0].p] + rest)[1..] == rest;
      } else {
        assert [] + rest == rest;
      }
      if s1.live {
        LiveDelivers(s1, es[1..], quits);
      } else {
        DetachedStays(s1, es[1..], quits);
      }
    }
  }

  lemma {:induction false} RunConcat(s: Sub, x: seq<Event>, y: seq<Event>, quits: Verdict)
    ensures Run(s, x + y, quits) == Run(Run(s, x, quits), y, quits)
    decreases |x|
  {
    if x == [] {
      assert x + y == y;
    } else {
      assert (x + y)[1..] == x[1..] + y && (x + y)[0] == x[0];
      RunConcat(Step(s, x[0], quits), x[1..], y, quits);
    }
  }

  /** The run with the token at its place: quiet stretches before it, between it
      and the flush, and after. */
  function Woven(before: seq<Event>, t: int, mid: seq<Event>, after: seq<Event>): seq<Event> {
    before + [Resolve(t)] + mid + [Flush] + after
  }

  lemma {:induction false} WovenRun(before: seq<Event>, t: int, mid: seq<Event>, after: seq<Event>, quits: Verdict)
    ensures Run(Fresh, Woven(before, t, mid, after), quits) ==
            Run(Step(Run(Step(Run(Fresh, before, quits), Resolve(t), quits), mid, quits), Flush, quits), after, quits)
  {
    hide Step;
    var a := before + [Resolve(t)];
    RunConcat(Fresh, a + mid + [Flush], after, quits);
    RunConcat(Fresh, a + mid, [Flush], quits);
    RunConcat(Fresh, a, mid, quits);
    RunConcat(Fresh, before, [Resolve(t)], quits);
    OneStep(Run(Fresh, before, quits), Resolve(t), quits);
    OneStep(Run(Fresh, a + mid, quits), Flush, quits);
  }

  lemma {:induction false} OneStep(s: Sub, e: Event, quits: Verdict)
    ensures Run(s, [e], quits) == Step(s, e, quits)
  {
    assert [e][1..] == [];
    assert Run(Step(s, e, quits), [], quits) == Step(s, e, quits);
  }

  lemma {:induction false} DeadReplay(s: Sub, ps: seq<Page>, quits: Verdict)
    requires !s.live
    ensures Replay(s, ps, quits) == s
  {
  }

  /** The state right after the token: the early pages buffered, nothing delivered. */
  lemma {:induction false} AtToken(before: seq<Event>, t: int, quits: Verdict)
    requires Quiet(before)
    ensures var l := Detach !in before;
            Step(Run(Fresh, before, quits), Resolve(t), quits) == Sub(Some(t), l, l, Arrived(before), [])
  {
    EarlyBuffers(Fresh, before, quits);
    assert [] + Arrived(before) == Arrived(before);
  }

  /** From a live state right before the flush on: the buffered pages, then the rest. */
  lemma {:induction false} FlushDelivers(s: Sub, after: seq<Event>, quits: Verdict)
    requires s.live && s.subscribed && s.token.Some? && Quiet(after)
    ensures Run(Step(s, Flush, quits), after, quits).got ==
            UntilQuit(s.got, OwnPages(s.early, s.token.value) + Own(after, s.token.value), quits)
  {
    hide Replay, Own, OwnPages;
    var early := OwnPages(s.early, s.token.value);
    ReplayDelivers(s.(early := []), s.early, quits);
    UntilQuitSplits(s.got, early, Own(after, s.token.value), quits);
    var r := Step(s, Flush, quits);
    if r.live {
      LiveDelivers(r, after, quits);
    } else {
      DetachedStays(r, after, quits);
    }
  }

  lemma {:induction false} DeadFlush(s: Sub, after: seq<Event>, quits: Verdict)
    requires !s.live && !s.subscribed && Quiet(after)
    ensures Run(Step(s, Flush, quits), after, quits).got == s.got
  {
    DeadReplay(s.(early := []), s.early, quits);
    DetachedStays(Step(s, Flush, quits), after, quits);
  }

  // ---------- whole runs ----------

  /** Whatever arrives and whenever anyone detaches, the handler receives its own
      token's pages, each once, up to the first page it quits on: those between
      token and flush first, then the buffered ones, then the rest - cut short
      where a detach fell, and none at all when it fell before the token. */
  lemma {:induction false} DeliversExactly(
    before: seq<Event>, t: int, mid: seq<Event>, after: seq<Event>, quits: Verdict)
    requires Quiet(before) && Quiet(mid) && Quiet(after)
    ensures Run(Fresh, Woven(before, t, mid, after), quits).got ==
            if Detach in before then []
            else if Detach in mid then UntilQuit([], Own(mid, t), quits)
            else UntilQuit([], Own(mid, t) + (Own(before, t) + Own(after, t)), quits)
  {
    hide Step, Woven, Own, OwnPages, Arrived, UntilQuit;
    WovenRun(before, t, mid, after, quits);
    AtToken(before, t, quits);
    OwnArrived(before, t);
    var s1 := Step(Run(Fresh, before, quits), Resolve(t), quits);
    var s2 := Run(s1, mid, quits);
    if Detach in before {
      DetachedStays(s1, mid, quits);
      DeadFlush(s2, after, quits);
    } else {
      LiveDelivers(s1, mid, quits);
      UntilQuitSplits([], Own(mid, t), Own(before, t) + Own(after, t), quits);
      assert [] + Own(mid, t) == Own(mid, t);
      if s2.live {
        FlushDelivers(s2, after, quits);
      } else {
        DeadFlush(s2, after, quits);
      }
    }
  }

  lemma {:induction false} NoneArrive(es: seq<Event>, t: int)
    requires NoArrivals(es)
    ensures Own(es, t) == []
  {
    if es != [] {
      assert es[0] in es;
    }
  }

  /** When no page falls between token and flush, the order is the order of arrival. */
  lemma {:induction false} DeliversOwnInOrder(
    before: seq<Event>, t: int, mid: seq<Event>, after: seq<Event>, quits: Verdict)
    requires Quiet(before) && NoArrivals(mid) && Quiet(after)
    ensures Run(Fresh, Woven(before, t, mid, after), quits).got ==
            if Detach in before || Detach in mid then []
            else UntilQuit([], Own(before, t) + Own(after, t), quits)
  {
    hide Run, Woven, Own;
    DeliversExactly(before, t, mid, after, quits);
    NoneArrive(mid, t);
    assert [] + (Own(before, t) + Own(after, t)) == Own(before, t) + Own(after, t);
  }

  predicate Tokenless(es: seq<Event>) {
    forall e | e in es :: !e.Resolve?
  }

  lemma {:induction false} TokenlessKeeps(s: Sub, es: seq<Event>, quits: Verdict)
    requires s.token.None? && Tokenless(es)
    ensures var r := Run(s, es, quits); r.got == s.got && r.token.None?
    decreases |es|
  {
    if es != [] {
      assert es[0] in es;
      if es[0] == Flush {
        TokenlessReplay(s.(early := []), s.early, quits);
      }
      TokenlessKeeps(Step(s, es[0], quits), es[1..], quits);
    }
  }

  lemma {:induction false} TokenlessReplay(s: Sub, ps: seq<Page>, quits: Verdict)
    requires s.token.None?
    ensures Replay(s, ps, quits) == s
    decreases |ps|
  {
    if ps != [] && s.live {
      TokenlessReplay(s, ps[1..], quits);
    }
  }

  lemma {:induction false} OffKeeps(s: Sub, es: seq<Event>, quits: Verdict)
    requires !s.live && !s.subscribed
    ensures Run(s, es, quits).got == s.got
    decreases |es|
  {
    if es != [] {
      if es[0] == Flush {
        DeadReplay(s.(early := []), s.early, quits);
      }
      OffKeeps(Step(s, es[0], quits), es[1..], quits);
    }
  }

  /** A start that fails delivers nothing, whatever arrived before it and whatever
      arrives, is flushed or even resolved after. */
  lemma {:induction false} RejectedDeliversNothing(before: seq<Event>, after: seq<Event>, quits: Verdict)
    requires Tokenless(before)
    ensures Run(Fresh, before + [Reject] + after, quits).got == []
  {
    hide Step;
    RunConcat(Fresh, before + [Reject], after, quits);
    RunConcat(Fresh, before, [Reject], quits);
    TokenlessKeeps(Fresh, before, quits);
    var s := Run(Fresh, before, quits);
    OneStep(s, Reject, quits);
    RejectsOff(s, quits);
    OffKeeps(Step(s, Reject, quits), after, quits);
  }

  lemma {:induction false} RejectsOff(s: Sub, quits: Verdict)
    ensures Step(s, Reject, quits) == s.(live := false, subscribed := false)
  {
  }

  // ---------- the window between token and flush ----------

  /** x and y run alike up to a page the handler quits on. */
  predicate QuitAlike(x: seq<Page>, y: seq<Page>, quits: Verdict)
    requires |x| == |y|
  {
    exists k | 0 < k <= |x| :: x[..k] == y[..k] && quits(x[..k])
  }

  lemma {:induction false} QuitsSomewhere(got: seq<Page>, ps: seq<Page>, quits: Verdict)
    ensures QuitsIn(got, ps, quits) <==> exists k | 0 < k <= |ps| :: quits(got + ps[..k])
    decreases |ps|
  {
    if ps != [] {
      QuitsSomewhere(got + [ps[0]], ps[1..], quits);
      assert got + ps[..1] == got + [ps[0]];
      assert forall k | 0 < k <= |ps| - 1 :: got + [ps[0]] + ps[1..][..k] == got + ps[..k + 1];
      if k :| 1 < k <= |ps| && quits(got + ps[..k]) {
        assert got + [ps[0]] + ps[1..][..k - 1] == got + ps[..k];
      }
    }
  }

  /** No quit on the first k pages. */
  predicate NoQuit(x: seq<Page>, k: nat, quits: Verdict)
    requires k <= |x|
  {
    forall j | 0 < j <= k :: !quits(x[..j])
  }

  lemma {:induction false} QuitAt(x: seq<Page>, more: seq<Page>, k: nat, quits: Verdict)
    requires k <= |x| && NoQuit(x, k, quits)
    ensures UntilQuit([], x + more, quits) == UntilQuit(x[..k], x[k..] + more, quits)
  {
    UntilQuitSplits([], x[..k], x[k..] + more, quits);
    assert x[..k] + (x[k..] + more) == x + more;
    assert [] + x[..k] == x[..k];
    QuitsSomewhere([], x[..k], quits);
    assert forall j | 0 < j <= k :: [] + x[..k][..j] == x[..j];
  }

  /** The first k pages alike, the next one not, and no quit before it. */
  lemma {:induction false} SplitTells(x: seq<Page>, y: seq<Page>, more: seq<Page>, k: nat, quits: Verdict)
    requires |x| == |y| && k < |x| && x[..k] == y[..k] && x[k] != y[k] && NoQuit(x, k, quits)
    ensures UntilQuit([], x + more, quits) != UntilQuit([], y + more, quits)
  {
    hide UntilQuit;
    assert forall j | 0 < j <= k :: x[..j] == y[..j];
    QuitAt(x, more, k, quits);
    QuitAt(y, more, k, quits);
    FirstKept(x[..k], x[k..] + more, quits);
    FirstKept(y[..k], y[k..] + more, quits);
    assert UntilQuit([], x + more, quits)[k] == x[k];
    assert UntilQuit([], y + more, quits)[k] == y[k];
  }

  lemma {:induction false} FirstKept(got: seq<Page>, ps: seq<Page>, quits: Verdict)
    requires ps != []
    ensures got + [ps[0]] <= UntilQuit(got, ps, quits)
    decreases |ps|
  {
    if |ps| > 1 && !quits(got + [ps[0]]) {
      FirstKept(got + [ps[0]], ps[1..], quits);
    }
  }

  lemma {:induction false} QuitHere(x: seq<Page>, more: seq<Page>, k: nat, quits: Verdict)
    requires k < |x| && NoQuit(x, k, quits) && quits(x[..k + 1])
    ensures UntilQuit([], x + more, quits) == x[..k + 1]
  {
    QuitAt(x, more, k, quits);
    assert x[..k] + [x[k]] == x[..k + 1];
  }

  lemma {:induction false} Apart(x: seq<Page>, y: seq<Page>, k: nat, quits: Verdict)
    requires |x| == |y| && k < |x| && x[k] != y[k] && NoQuit(x, k, quits)
    ensures !QuitAlike(x, y, quits)
  {
    forall j | 0 < j <= |x|
      ensures x[..j] != y[..j] || !quits(x[..j])
    {
      if j > k {
        assert x[..j][k] == x[k] && y[..j][k] == y[k];
      }
    }
  }

  lemma {:induction false} QuitAlikeExact(x: seq<Page>, y: seq<Page>, more: seq<Page>, k: nat, quits: Verdict)
    requires |x| == |y| && k <= |x| && x[..k] == y[..k] && NoQuit(x, k, quits)
    ensures UntilQuit([], x + more, quits) == UntilQuit([], y + more, quits) <==> x == y || QuitAlike(x, y, quits)
    decreases |x| - k
  {
    hide UntilQuit;
    if k == |x| {
      assert x == x[..k] == y[..k] == y;
    } else if x[k] != y[k] {
      SplitTells(x, y, more, k, quits);
      Apart(x, y, k, quits);
    } else {
      assert x[..k + 1] == x[..k] + [x[k]] == y[..k + 1];
      if quits(x[..k + 1]) {
        assert forall j | 0 < j <= k :: x[..j] == y[..j];
        QuitHere(x, more, k, quits);
        QuitHere(y, more, k, quits);
      } else {
        QuitAlikeExact(x, y, more, k + 1, quits);
      }
    }
  }

  /** A page that slips in between token and flush is delivered ahead of the
      buffered ones. The handler gets the pages in the order of arrival all the same
      exactly when both orders are one, or it quits while they still agree; pages
      all different, exactly when one side holds nothing. */
  lemma {:induction false} MidArrivalsReorder(
    before: seq<Event>, t: int, mid: seq<Event>, after: seq<Event>, quits: Verdict)
    requires Quiet(before) && Quiet(mid) && Quiet(after) && Detach !in before && Detach !in mid
    ensures var e, m := Own(before, t), Own(mid, t);
            var inOrder :=
              Run(Fresh, Woven(before, t, mid, after), quits).got == UntilQuit([], e + m + Own(after, t), quits);
            && (inOrder <==> m + e == e + m || QuitAlike(m + e, e + m, quits))
            && ((forall p | p in e :: p !in m) ==> (inOrder <==> e == [] || m == []))
  {
    hide Run, Woven, Own, UntilQuit, QuitsIn, QuitAlike;
    var e, m, f := Own(before, t), Own(mid, t), Own(after, t);
    DeliversExactly(before, t, mid, after, quits);
    assert m + (e + f) == m + e + f;
    QuitAlikeExact(m + e, e + m, f, 0, quits);
    if forall p | p in e :: p !in m {
      Commute(e, m, quits);
    }
  }

  lemma {:induction false} Commute(e: seq<Page>, m: seq<Page>, quits: Verdict)
    requires forall p | p in e :: p !in m
    ensures m + e == e + m || QuitAlike(m + e, e + m, quits) <==> e == [] || m == []
  {
    if e == [] || m == [] {
      assert m + e == e + m;
    } else {
      assert (m + e)[0] == m[0] && (e + m)[0] == e[0] && e[0] in e && m[0] in m;
      assert forall k | 0 < k <= |m + e| :: (m + e)[..k][0] == m[0] && (e + m)[..k][0] == e[0];
    }
  }
}
