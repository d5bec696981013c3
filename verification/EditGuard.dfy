/** The guarded S3 edit as a protocol: HEAD, pull, editor, conditional PUT, with
    other writers free to move the object before every step. */
module EditGuard {
  import opened Basics

  datatype Version = Version(body: string, etag: string)

  /** What another writer does to the object. */
  datatype Write = Put(v: Version) | Delete

  /** The object's states so far, oldest first; None is absence. */
  type Log = l: seq<Option<Version>> | |l| > 0 witness [None]

  /** What the wire does with our PUT. */
  datatype Fate = Arrives | Lost(applied: bool)

  datatype Exit =
    | HeadError | StageError | PullError | StampError | EditorError
    | NoChange | Conflict | PushError | Pushed

  /** One interleaving: the writes that land before each request, and what each
      local step does. The editor is a function of the pulled text. */
  datatype Script = Script(
    beforeHead: seq<Write>, beforeGet: seq<Write>, beforePut: seq<Write>,
    headFails: bool, stageFails: bool, pullFails: bool, stampFails: bool, editorFails: bool,
    touched: bool, edit: string -> string, fate: Fate, newEtag: string)

  /** strings.Trim(s, `"`) */
  function TrimQuotes(s: string): string
    decreases |s|
  {
    if s != "" && s[0] == '"' then TrimQuotes(s[1..])
    else if s != "" && s[|s| - 1] == '"' then TrimQuotes(s[..|s| - 1])
    else s
  }

  function Current(log: Log): Option<Version> {
    log[|log| - 1]
  }

  function Landing(ws: seq<Write>): (r: seq<Option<Version>>)
    ensures |r| == |ws|
  {
    if ws == [] then []
    else [match ws[0] case Put(v) => Some(v) case Delete => None] + Landing(ws[1..])
  }

  /** If-Match, section 13.1.1 of RFC 9110: false without a current
      representation, else true on the current entity tag; no header, no guard. */
  predicate Allows(log: Log, ifMatch: string) {
    ifMatch == "" || (Current(log).Some? && TrimQuotes(Current(log).value.etag) == ifMatch)
  }

  datatype PutAnswer = PutOk | PutRefused | PutFailed

  class ObjectStore {
    var log: Log

    constructor (log: Log)
      ensures this.log == log
    {
      this.log := log;
    }

    method Interfere(ws: seq<Write>)
      modifies this
      ensures log == old(log) + Landing(ws)
    {
      log := log + Landing(ws);
    }

    /** The server's atomic verdict: test and write in one step. */
    method PutIfMatch(v: Version, ifMatch: string, fate: Fate) returns (a: PutAnswer)
      modifies this
      ensures a == Answer(old(log), ifMatch, fate)
      ensures log == if Applied(old(log), ifMatch, fate) then old(log) + [Some(v)] else old(log)
    {
      if fate.Lost? && !fate.applied {
        return PutFailed;
      }
      if !Allows(log, ifMatch) {
        return if fate.Lost? then PutFailed else PutRefused;
      }
      log := log + [Some(v)];
      a := if fate.Lost? then PutFailed else PutOk;
    }
  }

  function Answer(log: Log, ifMatch: string, fate: Fate): PutAnswer {
    if fate.Lost? then PutFailed else if Allows(log, ifMatch) then PutOk else PutRefused
  }

  predicate Applied(log: Log, ifMatch: string, fate: Fate) {
    Allows(log, ifMatch) && (fate.Lost? ==> fate.applied)
  }

  // ---------- the run as a value ----------

  function AtHead(log: Log, sc: Script): Log {
    log + Landing(sc.beforeHead)
  }

  function AtGet(log: Log, sc: Script): Log {
    AtHead(log, sc) + Landing(sc.beforeGet)
  }

  function AtPut(log: Log, sc: Script): Log {
    AtGet(log, sc) + Landing(sc.beforePut)
  }

  /** The text the editor opens: the pulled body, or nothing for a file being born. */
  function Opened(log: Log, sc: Script): string {
    if Current(AtHead(log, sc)).Some? && Current(AtGet(log, sc)).Some? then Current(AtGet(log, sc)).value.body else ""
  }

  function IfMatch(log: Log, sc: Script, force: bool): string {
    if Current(AtHead(log, sc)).Some? && !force then TrimQuotes(Current(AtHead(log, sc)).value.etag) else ""
  }

  /** Where the edit ends before anything is pushed, if it does. */
  function EarlyExit(log: Log, sc: Script): Option<Exit> {
    var existed := Current(AtHead(log, sc)).Some?;
    if sc.headFails then Some(HeadError)
    else if sc.stageFails then Some(StageError)
    else if existed && (sc.pullFails || Current(AtGet(log, sc)).None?) then Some(PullError)
    else if sc.stampFails then Some(StampError)
    else if sc.editorFails then Some(EditorError)
    else if !sc.touched then Some(NoChange)
    else None
  }

  /** The pulled object came back, opened, saved, and goes up as this. */
  function Pushing(log: Log, sc: Script): Version {
    Version(sc.edit(Opened(log, sc)), sc.newEtag)
  }

  /** How far the other writers have come by the exit. */
  function LogAtExit(log: Log, sc: Script): Log {
    match EarlyExit(log, sc)
    case Some(HeadError) => AtHead(log, sc)
    case Some(StageError) => AtHead(log, sc)
    case Some(_) => if Current(AtHead(log, sc)).Some? then AtGet(log, sc) else AtHead(log, sc)
    case None => AtPut(log, sc)
  }

  function ExitOf(log: Log, sc: Script, force: bool): Exit {
    match EarlyExit(log, sc)
    case Some(e) => e
    case None =>
      match Answer(AtPut(log, sc), IfMatch(log, sc, force), sc.fate)
      case PutOk => Pushed
      case PutRefused => Conflict
      case PutFailed => PushError
  }

  predicate Lands(log: Log, sc: Script, force: bool) {
    EarlyExit(log, sc).None? && Applied(AtPut(log, sc), IfMatch(log, sc, force), sc.fate)
  }

  /** The object's history when the command returns. */
  function Final(log: Log, sc: Script, force: bool): Log {
    LogAtExit(log, sc) + (if Lands(log, sc, force) then [Some(Pushing(log, sc))] else [])
  }

  /** What is left of the staging copy on disk after the deferred removal. */
  function LeftOf(log: Log, sc: Script, force: bool): Option<string> {
    if ExitOf(log, sc, force) in {Conflict, PushError} then Some(sc.edit(Opened(log, sc))) else None
  }

  /** editS3, step by step. */
  method EditS3(store: ObjectStore, force: bool, sc: Script) returns (exit: Exit, left: Option<string>)
    modifies store
    ensures exit == ExitOf(old(store.log), sc, force)
    ensures left == LeftOf(old(store.log), sc, force)
    ensures store.log == Final(old(store.log), sc, force)
  {
    ghost var log := store.log;
    var existed, etag, keep := true, "", false;
    left := None;
    store.Interfere(sc.beforeHead);
    if sc.headFails {
      return HeadError, None;
    }
    var head := Current(store.log);
    if head.None? {
      existed := false;
    } else {
      etag := TrimQuotes(head.value.etag);
    }
    if sc.stageFails {
      return StageError, None;
    }
    var staged := "";
    if existed {
      store.Interfere(sc.beforeGet);
      if sc.pullFails || Current(store.log).None? {
        exit, left := PullError, if keep then Some(staged) else None;
        return;
      }
      staged := Current(store.log).value.body;
    }
    if sc.stampFails {
      exit, left := StampError, if keep then Some(staged) else None;
      return;
    }
    if sc.editorFails {
      exit, left := EditorError, if keep then Some(staged) else None;
      return;
    }
    if !sc.touched {
      exit, left := NoChange, if keep then Some(staged) else None;
      return;
    }
    staged := sc.edit(staged);
    var ifMatch := if existed && !force then etag else "";
    if existed {
      store.Interfere(sc.beforePut);
    } else {
      store.Interfere(sc.beforeGet);
      store.Interfere(sc.beforePut);
    }
    var a := store.PutIfMatch(Version(staged, sc.newEtag), ifMatch, sc.fate);
    if a == PutRefused {
      keep := true;
      exit := Conflict;
    } else if a == PutFailed {
      keep := true;
      exit := PushError;
    } else {
      exit := Pushed;
    }
    left := if keep then Some(staged) else None;
  }

  // ---------- every exit by its own input ----------

  /** HEAD found the object. */
  predicate Existed(log: Log, sc: Script) {
    Current(AtHead(log, sc)).Some?
  }

  /** The staging copy is there, pulled where there was something to pull. */
  predicate Staged(log: Log, sc: Script) {
    !sc.headFails && !sc.stageFails && (Existed(log, sc) ==> !sc.pullFails && Current(AtGet(log, sc)).Some?)
  }

  /** The editor ran and came back. */
  predicate Edited(log: Log, sc: Script) {
    Staged(log, sc) && !sc.stampFails && !sc.editorFails
  }

  /** The user saved. */
  predicate Saved(log: Log, sc: Script) {
    Edited(log, sc) && sc.touched
  }

  /** The tag the PUT is held to; "" when it is held to none. */
  function Guard(log: Log, sc: Script, force: bool): string {
    if Existed(log, sc) && !force then TrimQuotes(Current(AtHead(log, sc)).value.etag) else ""
  }

  /** The object the PUT meets carries that tag. */
  predicate Unmoved(log: Log, sc: Script, force: bool) {
    var now := Current(AtPut(log, sc));
    Guard(log, sc, force) == "" || (now.Some? && TrimQuotes(now.value.etag) == Guard(log, sc, force))
  }

  /** Each failing step has its exit and no other input has; untouched is NoChange, a
      saved edit is refused, lost or pushed by what the wire and the tag say. */
  lemma {:induction false} ExitsExact(log: Log, sc: Script, force: bool)
    ensures var exit := ExitOf(log, sc, force);
            && (exit == HeadError <==> sc.headFails)
            && (exit == StageError <==> !sc.headFails && sc.stageFails)
            && (exit == PullError <==> !sc.headFails && !sc.stageFails && !Staged(log, sc))
            && (exit == StampError <==> Staged(log, sc) && sc.stampFails)
            && (exit == EditorError <==> Staged(log, sc) && !sc.stampFails && sc.editorFails)
            && (exit == NoChange <==> Edited(log, sc) && !sc.touched)
            && (exit == PushError <==> Saved(log, sc) && sc.fate.Lost?)
            && (exit == Conflict <==> Saved(log, sc) && sc.fate == Arrives && !Unmoved(log, sc, force))
            && (exit == Pushed <==> Saved(log, sc) && sc.fate == Arrives && Unmoved(log, sc, force))
  {
    hide TrimQuotes, Landing;
    SavedExact(log, sc);
  }

  lemma {:induction false} SavedExact(log: Log, sc: Script)
    ensures EarlyExit(log, sc).None? <==> Saved(log, sc)
  {
    hide Landing;
  }

  lemma {:induction false} Quotes(s: string)
    ensures var r := TrimQuotes(s);
            && (r != "" ==> r[0] != '"' && r[|r| - 1] != '"')
            && exists a, b :: Cut(s, r, a, b)
    decreases |s|
  {
    hide AllQuotes;
    if s != "" && s[0] == '"' {
      Quotes(s[1..]);
      var a, b :| Cut(s[1..], TrimQuotes(s), a, b);
      CutFront(s, TrimQuotes(s), a, b);
    } else if s != "" && s[|s| - 1] == '"' {
      Quotes(s[..|s| - 1]);
      var a, b :| Cut(s[..|s| - 1], TrimQuotes(s), a, b);
      CutBack(s, TrimQuotes(s), a, b);
    } else {
      CutNothing(s);
    }
  }

  lemma {:induction false} CutFront(s: string, r: string, a: string, b: string)
    requires s != "" && s[0] == '"' && Cut(s[1..], r, a, b)
    ensures Cut(s, r, ['"'] + a, b)
  {
    assert s == ['"'] + s[1..];
    assert ['"'] + (a + r + b) == ['"'] + a + r + b;
  }

  lemma {:induction false} CutBack(s: string, r: string, a: string, b: string)
    requires s != "" && s[|s| - 1] == '"' && Cut(s[..|s| - 1], r, a, b)
    ensures Cut(s, r, a, b + ['"'])
  {
    assert s == s[..|s| - 1] + ['"'];
    assert a + r + b + ['"'] == a + r + (b + ['"']);
  }

  lemma {:induction false} CutNothing(s: string)
    ensures Cut(s, s, "", "")
  {
    assert "" + s + "" == s;
  }

  predicate AllQuotes(s: string) {
    forall c | c in s :: c == '"'
  }

  predicate Cut(s: string, r: string, a: string, b: string) {
    s == a + r + b && AllQuotes(a) && AllQuotes(b)
  }

  /** A trimmed tag is the tag less all quotes at its ends, and nothing else. */
  lemma {:induction false} TrimQuotesExact(s: string, r: string)
    ensures TrimQuotes(s) == r <==>
            (exists a, b :: Cut(s, r, a, b)) && (r != "" ==> r[0] != '"' && r[|r| - 1] != '"')
  {
    Quotes(s);
    if (exists a, b :: Cut(s, r, a, b)) && (r != "" ==> r[0] != '"' && r[|r| - 1] != '"') {
      var a, b :| Cut(s, r, a, b);
      var q := TrimQuotes(s);
      var c, d :| Cut(s, q, c, d);
      CutOnce(s, r, a, b, q, c, d);
    }
  }

  lemma {:induction false} CutOnce(s: string, r: string, a: string, b: string, q: string, c: string, d: string)
    requires Cut(s, r, a, b) && Cut(s, q, c, d)
    requires r != "" ==> r[0] != '"' && r[|r| - 1] != '"'
    requires q != "" ==> q[0] != '"' && q[|q| - 1] != '"'
    ensures r == q
  {
    QuotesOnly(a);
    QuotesOnly(b);
    QuotesOnly(c);
    QuotesOnly(d);
    if r != "" {
      assert s[|a|] == r[0] && s[|a| + |r| - 1] == r[|r| - 1];
    }
    if q != "" {
      assert s[|c|] == q[0] && s[|c| + |q| - 1] == q[|q| - 1];
    }
    assert r == s[|a|..|a| + |r|] && q == s[|c|..|c| + |q|];
  }

  lemma {:induction false} QuotesOnly(a: string)
    requires AllQuotes(a)
    ensures forall i | 0 <= i < |a| :: a[i] == '"'
  {
    forall i | 0 <= i < |a|
      ensures a[i] == '"'
    {
      assert a[i] in a;
    }
  }

  // ---------- what the guard is for ----------

  /** Versions are told apart by their entity tags. */
  ghost predicate TagsDistinguish(log: Log) {
    forall i, j | 0 <= i < |log| && 0 <= j < |log| && log[i].Some? && log[j].Some? ::
      TrimQuotes(log[i].value.etag) == TrimQuotes(log[j].value.etag) ==> i == j
  }

  /** HEAD found the object, with a tag, and nobody forces. */
  predicate Guarded(log: Log, sc: Script, force: bool) {
    Current(AtHead(log, sc)).Some? && TrimQuotes(Current(AtHead(log, sc)).value.etag) != "" && !force
  }

  /** Guarded, no update is lost: in every interleaving, if the PUT takes effect,
      the object has not moved since HEAD - so the version replaced is the version
      HEAD saw and the text pushed was made from that very version's body. A moved
      object is refused, and the refusal writes nothing. */
  lemma {:induction false} NoLostUpdate(log: Log, sc: Script, force: bool)
    requires Guarded(log, sc, force) && TagsDistinguish(AtPut(log, sc)) && Saved(log, sc)
    ensures Lands(log, sc, force) ==>
              && AtPut(log, sc) == AtHead(log, sc)
              && Pushing(log, sc).body == sc.edit(Current(AtHead(log, sc)).value.body)
    ensures AtPut(log, sc) != AtHead(log, sc) ==>
              !Lands(log, sc, force) && ExitOf(log, sc, force) in {Conflict, PushError}
    ensures AtPut(log, sc) == AtHead(log, sc) && sc.fate == Arrives ==> ExitOf(log, sc, force) == Pushed
  {
    hide TrimQuotes, Landing;
    var head, put := AtHead(log, sc), AtPut(log, sc);
    assert put[|head| - 1] == head[|head| - 1];
    if Allows(put, IfMatch(log, sc, force)) {
      assert |put| - 1 == |head| - 1;
      assert put == head;
      assert AtGet(log, sc) == head;
    }
  }

  /** What the user saved is stored or kept: the object then holds the edit of what
      was pulled, or the staging copy is left with it. A copy never saved is removed,
      and nothing of ours reaches the object. */
  lemma {:induction false} NoEditLost(log: Log, sc: Script, force: bool)
    ensures var pulled := if Existed(log, sc) then Current(AtGet(log, sc)) else None;
            var text := sc.edit(if pulled.Some? then pulled.value.body else "");
            var end := Final(log, sc, force);
            && (Saved(log, sc) ==>
                  if ExitOf(log, sc, force) == Pushed
                  then Current(end) == Some(Version(text, sc.newEtag)) && LeftOf(log, sc, force) == None
                  else LeftOf(log, sc, force) == Some(text))
            && (!Saved(log, sc) ==> LeftOf(log, sc, force) == None && end == LogAtExit(log, sc))
  {
    hide TrimQuotes, Landing;
    SavedExact(log, sc);
  }

  /** Without the guard - forced, tagless, or a file being born - some interleaving
      overwrites a version HEAD never saw, and reports success. */
  lemma {:induction false} UnguardedOverwrites(log: Log, sc: Script, force: bool, other: Version)
    requires !Guarded(log, sc, force) && Saved(log, sc) && sc.fate == Arrives
    ensures var moved := sc.(beforePut := sc.beforePut + [Put(other)]);
            && ExitOf(log, moved, force) == Pushed
            && Current(AtPut(log, moved)) == Some(other)
            && |AtPut(log, moved)| > |AtHead(log, moved)|
  {
    var moved := sc.(beforePut := sc.beforePut + [Put(other)]);
    LandingLast(sc.beforePut, Put(other));
    assert AtHead(log, moved) == AtHead(log, sc) && AtGet(log, moved) == AtGet(log, sc);
  }

  lemma {:induction false} LandingLast(ws: seq<Write>, w: Write)
    ensures Landing(ws + [w]) == Landing(ws) + Landing([w])
  {
    if ws == [] {
      assert ws + [w] == [w];
    } else {
      assert (ws + [w])[1..] == ws[1..] + [w];
      LandingLast(ws[1..], w);
    }
  }
}
