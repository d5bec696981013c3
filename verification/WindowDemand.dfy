/** What the demand engine asks for, said on the slots. */
module WindowDemand {
  import opened Basics
  import opened WindowSpec

  /** The first slot the view can see, its prefetch reach above included. */
  function Reach(t: Tuning, absTop: real): nat
    requires absTop >= 0.0
  {
    Floor(if absTop > t.prefetch as real then absTop - t.prefetch as real else 0.0)
  }

  /** Some slot from there to the view's bottom is owed: above the window's head, or a
      tombstone in it. */
  predicate Owes(s: State, t: Tuning, absTop: real, absBot: real)
    requires 0.0 <= absTop <= absBot
  {
    || Reach(t, absTop) < s.base
    || exists i: nat :: Reach(t, absTop) <= i <= Floor(absBot) && i < s.Edge() && s.At(i) == None
  }

  predicate Resting(s: State, backoff: bool) {
    s.streaming && !s.needDown && !s.needUp && !backoff
  }

  lemma {:induction false} MissingOwes(s: State, t: Tuning, absTop: real, absBot: real)
    requires 0.0 <= absTop <= absBot
    ensures Missing(s, t, absTop, absBot) <==> Owes(s, t, absTop, absBot)
  {
    var lo := Reach(t, absTop);
    if lo >= s.base {
      if Missing(s, t, absTop, absBot) {
        var k :| 0 <= k < |s.all| && lo - s.base <= k <= Floor(absBot) - s.base && s.all[k] == None;
        assert s.At(s.base + k) == None;
      }
      if Owes(s, t, absTop, absBot) {
        var i: nat :| lo <= i <= Floor(absBot) && i < s.Edge() && s.At(i) == None;
        assert s.all[i - s.base] == None;
      }
    }
  }

  /** An engine at rest asks upward exactly when the view is owed a slot, and downward
      exactly when it is owed none, the edge is within reach and not known to be the
      end; any other engine asks for nothing. */
  lemma {:induction false} NeedExact(s: State, t: Tuning, absTop: real, absBot: real, backoff: bool)
    requires 0.0 <= absTop <= absBot
    ensures var d := Need(s, t, absTop, absBot, backoff);
            && (!Resting(s, backoff) ==> d == Nothing)
            && (Resting(s, backoff) ==>
                  && (d.WantUp? <==> Owes(s, t, absTop, absBot))
                  && (d == WantDown <==>
                      && !Owes(s, t, absTop, absBot)
                      && absBot + t.prefetch as real >= s.Edge() as real
                      && (s.streamDone ==> s.universe.Some? && s.Edge() < s.universe.value)))
  {
    hide Missing, Owes, TopBelow;
    MissingOwes(s, t, absTop, absBot);
  }
}
