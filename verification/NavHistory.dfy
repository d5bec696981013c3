/** The main view's back and forward stacks. */
module NavHistory {
  import opened Basics
  import opened Places

  datatype History = History(stack: seq<Loc>, forward: seq<Loc>, current: Option<Loc>)

  function To(h: History, loc: Loc, push: bool): History {
    if push && h.current.Some? && !SameLoc(loc, h.current.value) then
      History(h.stack + [h.current.value],
              if Climbs(loc, h.current.value, HOPS) then h.forward + [h.current.value] else [],
              Some(loc))
    else h.(current := Some(loc))
  }

  function Shelve(stack: seq<Loc>, current: Option<Loc>): seq<Loc> {
    if current.Some? then stack + [current.value] else stack
  }

  function Back(h: History): History {
    if h.stack == [] then h
    else History(h.stack[..|h.stack| - 1], Shelve(h.forward, h.current), Some(h.stack[|h.stack| - 1]))
  }

  function Forward(h: History): History {
    if h.forward == [] then h
    else History(Shelve(h.stack, h.current), h.forward[..|h.forward| - 1], Some(h.forward[|h.forward| - 1]))
  }

  class Nav {
    var stack: seq<Loc>
    var forward: seq<Loc>
    var current: Option<Loc>

    function View(): History
      reads this
    {
      History(stack, forward, current)
    }

    constructor ()
      ensures View() == History([], [], None)
    {
      stack, forward, current := [], [], None;
    }

    method GoTo(loc: Loc, push: bool)
      modifies this
      ensures View() == To(old(View()), loc, push)
      ensures var h := old(View());
              var moved := push && h.current.Some? && !SameLoc(loc, h.current.value);
              && current == Some(loc)
              && (if moved then Back(View()).current == h.current && Back(View()).stack == h.stack
                  else stack == h.stack && forward == h.forward)
              && (moved && Climbs(loc, h.current.value, HOPS) ==>
                    Forward(View()).current == h.current && Forward(View()).forward == h.forward)
              && (moved && !Climbs(loc, h.current.value, HOPS) ==> Forward(View()) == View())
    {
      if push && current.Some? && !SameLoc(loc, current.value) {
        stack := stack + [current.value];
        var climb := IsAncestorLoc(loc, current.value);
        if climb {
          forward := forward + [current.value];
        } else {
          forward := [];
        }
      }
      current := Some(loc);
    }

    method GoBack() returns (loc: Option<Loc>)
      modifies this
      ensures View() == Back(old(View()))
      ensures old(stack != [] && current.Some?) ==>
                Forward(View()) == old(View()) && loc == Some(old(stack[|stack| - 1]))
      ensures old(stack) == [] ==> View() == old(View())
      ensures loc == if old(stack) == [] then None else current
    {
      if stack == [] {
        return None;
      }
      var last := stack[|stack| - 1];
      stack := stack[..|stack| - 1];
      if current.Some? {
        forward := forward + [current.value];
      }
      current := Some(last);
      return current;
    }

    method GoForward() returns (loc: Option<Loc>)
      modifies this
      ensures View() == Forward(old(View()))
      ensures old(forward != [] && current.Some?) ==>
                Back(View()) == old(View()) && loc == Some(old(forward[|forward| - 1]))
      ensures old(forward) == [] ==> View() == old(View())
      ensures loc == if old(forward) == [] then None else current
    {
      if forward == [] {
        return None;
      }
      var last := forward[|forward| - 1];
      forward := forward[..|forward| - 1];
      if current.Some? {
        stack := stack + [current.value];
      }
      current := Some(last);
      return current;
    }
  }

  function BackMany(h: History, n: nat): History
    decreases n
  {
    if n == 0 then h else BackMany(Back(h), n - 1)
  }

  function ForwardMany(h: History, n: nat): History
    decreases n
  {
    if n == 0 then h else ForwardMany(Forward(h), n - 1)
  }

  lemma {:induction false} ForwardLast(h: History, n: nat)
    ensures ForwardMany(h, n + 1) == Forward(ForwardMany(h, n))
    decreases n
  {
    if n > 0 {
      ForwardLast(Forward(h), n - 1);
    }
  }

  /** Any number of steps back, as many forward: the history stands as it was. */
  lemma {:induction false} BackForwardRestores(h: History, n: nat)
    requires h.current.Some? && n <= |h.stack|
    ensures ForwardMany(BackMany(h, n), n) == h
    decreases n
  {
    if n > 0 {
      BackForwardRestores(Back(h), n - 1);
      ForwardLast(BackMany(Back(h), n - 1), n - 1);
      var b := Back(h);
      assert Shelve(b.stack, b.current) == h.stack;
      assert b.forward[..|b.forward| - 1] == h.forward;
      assert Forward(b) == h;
    }
  }

  /** Going anywhere new keeps the view just left one step back; a climb to a
      place above, however spelled, keeps it one step forward as well, in front of what
      was there, and any other move cuts Forward. Re-listing the same place moves no stack. */
  lemma {:induction false} NavigationLaw(h: History, here: Place, sh: Spelling, there: Place, st: Spelling)
    requires ProperPlace(here) && ProperPlace(there) && h.current == Some(LocOf(here, sh))
    ensures var went := To(h, LocOf(there, st), true);
            && went.current == Some(LocOf(there, st))
            && (here == there ==> went.stack == h.stack && went.forward == h.forward)
            && (here != there ==> Back(went).current == h.current && Back(went).stack == h.stack)
            && (Above(there, here) && Depth(here) - Depth(there) <= HOPS ==>
                  Forward(went).current == h.current && Forward(went).forward == h.forward)
            && (here != there && !Above(there, here) ==> went.forward == [])
  {
    hide LocOf, Climbs, SameLoc, Above, Depth;
    SameLocExact(there, st, here, sh);
    NavAncestorExact(there, st, here, sh);
    AboveIrreflexive(here);
  }
}
