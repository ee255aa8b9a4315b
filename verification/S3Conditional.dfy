/** Conditional puts: one client's call, and any number of clients racing on one key. */
module S3Conditional {
  import opened Arithmetic
  import opened Wrappers
  import opened Blob
  import opened Retry
  import opened S3Fake

  /** What PutIfAbsent returns; an error comes without a claim that anything was created. */
  datatype PutResult = Settled(created: bool) | Failed

  /** Whether a response settles the call inside the retry loop: a 412 counts as success. */
  function Settles(r: Response): Outcome {
    if r == PreconditionFailed412 then Success else Classify(r)
  }

  /** How many of the n calls after the first `calls` are throttled. */
  function ThrottledIn(every: nat, calls: nat, n: nat): nat {
    if n == 0 then 0 else ThrottledIn(every, calls, n - 1) + if Throttled(every, calls + n) then 1 else 0
  }

  lemma {:induction false} ThrottledWithin(every: nat, calls: nat, n: nat, m: nat)
    requires n <= m
    ensures ThrottledIn(every, calls, n) <= ThrottledIn(every, calls, m) <= ThrottledIn(every, calls, n) + m - n
    decreases m
  {
    if n < m {
      ThrottledWithin(every, calls, n, m - 1);
    }
  }

  /** One client's call. It settles if and only if the conflicts still to come and the throttled
      calls among its attempts leave an attempt over. */
  method PutIfAbsent(f: Fake, maxAttempts: int, key: Key, data: Bytes) returns (r: PutResult)
    modifies f
    ensures r == Settled(true) ==> key !in old(f.objects) && f.objects == old(f.objects)[key := data]
    ensures r == Settled(false) ==> key in old(f.objects) && f.objects == old(f.objects)
    ensures r == Failed ==> f.objects == old(f.objects)
    ensures var budget := Budget(maxAttempts);
      r.Settled? <==> old(f.conflictsRemaining) + ThrottledIn(f.throttleEvery, old(f.callCount), budget) < budget
  {
    for attempt := 0 to Budget(maxAttempts)
      invariant f.objects == old(f.objects) && attempt < Budget(maxAttempts)
      invariant f.callCount == old(f.callCount) + attempt && f.conflictsRemaining <= old(f.conflictsRemaining)
      invariant old(f.conflictsRemaining) - f.conflictsRemaining
        + ThrottledIn(f.throttleEvery, old(f.callCount), attempt) == attempt
    {
      var response := f.PutObject(key, data, true);
      var created := response == OK;
      var verdict := AfterAttempt(maxAttempts, attempt, Settles(response));
      if verdict.Some? {
        ThrottledWithin(f.throttleEvery, old(f.callCount), attempt + 1, Budget(maxAttempts));
        return if verdict.value == Succeeded then Settled(created) else Failed;
      }
    }
    assert false;
  }

  /** Unless every call is throttled, twice as many attempts as there are conflicts, and two
      more, are enough. */
  lemma {:induction false} HalfThrottled(every: nat, calls: nat, n: nat)
    requires every != 1
    ensures 2 * ThrottledIn(every, calls, n) <= n + 1
    ensures n > 0 && !Throttled(every, calls + n) ==> 2 * ThrottledIn(every, calls, n) <= n
  {
    if n == 1 {
      assert ThrottledIn(every, calls, 0) == 0;
    } else if n > 1 {
      HalfThrottled(every, calls, n - 1);
      if Throttled(every, calls + n - 1) {
        NotTwice(calls + n - 1, every);
        HalfThrottled(every, calls, n - 2);
        assert ThrottledIn(every, calls, n) == ThrottledIn(every, calls, n - 2) + 1;
      }
    }
  }

  lemma EnoughAttempts(every: nat, calls: nat, conflicts: nat, maxAttempts: int)
    requires every != 1 && maxAttempts >= 2 * conflicts + 2
    ensures conflicts + ThrottledIn(every, calls, Budget(maxAttempts)) < Budget(maxAttempts)
  {
    HalfThrottled(every, calls, Budget(maxAttempts));
  }

  // ---- races ----

  /** A client in PutIfAbsent: about to make attempt number `attempt`, or with a response in hand
      that the server has already acted on, or returned. */
  datatype Client = Trying(attempt: nat) | Answered(attempt: nat, response: Response) | Returned(result: PutResult)

  /** The server's state for the key, with its throttling and conflict counters. */
  datatype Server = Server(stored: Option<Bytes>, callCount: nat, conflictsRemaining: nat)

  /** `writer` is history: the client whose write was carried out. */
  datatype State = State(server: Server, clients: seq<Client>, writer: Option<nat>)

  datatype Config = Config(data: seq<Bytes>, maxAttempts: int, throttleEvery: nat, conflicts: nat)

  /** A client's request reaches the server; a client takes in its response; a client finds its
      context done, before an attempt or while waiting for one; some other request is served. */
  datatype Step = Serve(i: nat) | Receive(i: nat) | Cancel(i: nat) | Traffic

  function Init(c: Config): State {
    State(Server(None, 0, c.conflicts), seq(|c.data|, _ => Trying(0)), None)
  }

  /** The server's answer to a conditional put. */
  function Respond(c: Config, s: Server): Response {
    PutResponse(c.throttleEvery, s.callCount + 1, s.conflictsRemaining, s.stored.Some?, true)
  }

  function Served(c: Config, s: Server, data: Bytes): Server {
    var r := Respond(c, s);
    Server(if r == OK then Some(data) else s.stored, s.callCount + 1,
           if r == Conflict409 && s.conflictsRemaining > 0 then s.conflictsRemaining - 1 else s.conflictsRemaining)
  }

  predicate Enabled(c: Config, s: State, e: Step) {
    match e
    case Serve(i) => i < |s.clients| && i < |c.data| && s.clients[i].Trying?
    case Receive(i) => i < |s.clients| && s.clients[i].Answered?
    case Cancel(i) => i < |s.clients| && s.clients[i].Trying?
    case Traffic => true
  }

  function Apply(c: Config, s: State, e: Step): State
    requires Enabled(c, s, e)
  {
    match e
    case Serve(i) =>
      var r := Respond(c, s.server);
      State(Served(c, s.server, c.data[i]), s.clients[i := Answered(s.clients[i].attempt, r)],
            if r == OK then Some(i) else s.writer)
    case Receive(i) =>
      var pc := s.clients[i];
      var next := match AfterAttempt(c.maxAttempts, pc.attempt, Settles(pc.response))
        case None => Trying(pc.attempt + 1)
        case Some(v) => Returned(if v == Succeeded then Settled(pc.response == OK) else Failed);
      s.(clients := s.clients[i := next])
    case Cancel(i) => s.(clients := s.clients[i := Returned(Failed)])
    case Traffic => s.(server := s.server.(callCount := s.server.callCount + 1))
  }

  function Replay(c: Config, run: seq<Step>): Option<State> {
    if run == [] then
      Some(Init(c))
    else
      var p := Replay(c, run[..|run| - 1]);
      if p.Some? && Enabled(c, p.value, run[|run| - 1]) then Some(Apply(c, p.value, run[|run| - 1])) else None
  }

  // ---- the machine and the server object ----

  /** The server object holds what the machine says it does. */
  ghost predicate Mirrors(f: Fake, key: Key, c: Config, s: Server)
    reads f
  {
    && f.throttleEvery == c.throttleEvery && f.callCount == s.callCount
    && f.conflictsRemaining == s.conflictsRemaining
    && s.stored == if key in f.objects then Some(f.objects[key]) else None
  }

  /** A new server is where the machine starts. */
  method NewServer(c: Config, key: Key, pageSize: nat) returns (f: Fake)
    ensures fresh(f) && Mirrors(f, key, c, Init(c).server)
  {
    f := new Fake(c.conflicts, c.throttleEvery, pageSize);
  }

  /** Serving a client is one conditional put of the server object. */
  method ServeOne(f: Fake, key: Key, c: Config, s: State, i: nat) returns (r: Response, t: State)
    requires Enabled(c, s, Serve(i)) && Mirrors(f, key, c, s.server)
    modifies f
    ensures t == Apply(c, s, Serve(i)) && Mirrors(f, key, c, t.server)
    ensures t.clients == s.clients[i := Answered(s.clients[i].attempt, r)]
    ensures f.objects == if r == OK then old(f.objects)[key := c.data[i]] else old(f.objects)
    ensures t.writer == if r == OK then Some(i) else s.writer
  {
    r := f.PutObject(key, c.data[i], true);
    t := Apply(c, s, Serve(i));
  }

  /** Any other request, a page of a listing say, may come at any time; it counts as a call and
      changes nothing else. */
  method ServeOther(f: Fake, key: Key, c: Config, s: State, prefix: Key, token: Key, maxKeys: nat)
    returns (r: Response, t: State)
    requires Mirrors(f, key, c, s.server) && f.pageSize >= 1 && maxKeys >= 1 && "" !in f.objects
    modifies f
    ensures Enabled(c, s, Traffic) && t == Apply(c, s, Traffic) && Mirrors(f, key, c, t.server)
    ensures f.objects == old(f.objects)
  {
    var page, next;
    r, page, next := f.ListObjects(prefix, token, maxKeys);
    t := Apply(c, s, Traffic);
  }

  lemma {:induction false} FirstThrottled(every: nat, calls: nat, n: nat)
    requires n > 0
    ensures ThrottledIn(every, calls, n)
         == ThrottledIn(every, calls + 1, n - 1) + if Throttled(every, calls + 1) then 1 else 0
  {
    if n == 1 {
      assert ThrottledIn(every, calls, 0) == 0 && ThrottledIn(every, calls + 1, 0) == 0;
    } else {
      FirstThrottled(every, calls, n - 1);
    }
  }

  /** One attempt of a client that nobody interrupts. */
  lemma Attempt(c: Config, run: seq<Step>, s: State, i: nat) returns (more: seq<Step>, t: State)
    requires Replay(c, run) == Some(s) && i < |s.clients| && i < |c.data| && s.clients[i].Trying?
    ensures more == run + [Serve(i), Receive(i)] && Replay(c, more) == Some(t)
    ensures t == Apply(c, Apply(c, s, Serve(i)), Receive(i))
  {
    var r1 := run + [Serve(i)];
    assert r1[..|run|] == run;
    t := Apply(c, Apply(c, s, Serve(i)), Receive(i));
    more := run + [Serve(i), Receive(i)];
    assert more[..|r1|] == r1;
  }

  /** What a call comes to when the other clients rest: it settles if and only if the conflicts
      still to come and the throttled calls among its attempts leave one over, and then it has
      created the object exactly if the key was free. */
  lemma {:induction false} RunsAlone(c: Config, run: seq<Step>, s: State, i: nat)
    returns (more: seq<Step>, t: State)
    requires Replay(c, run) == Some(s) && i < |s.clients| && i < |c.data|
    requires s.clients[i].Trying? && s.clients[i].attempt < Budget(c.maxAttempts)
    ensures run <= more && Replay(c, more) == Some(t) && |t.clients| == |s.clients| && t.clients[i].Returned?
    ensures forall k :: 0 <= k < |s.clients| && k != i ==> t.clients[k] == s.clients[k]
    ensures var left := Budget(c.maxAttempts) - s.clients[i].attempt;
      if s.server.conflictsRemaining + ThrottledIn(c.throttleEvery, s.server.callCount, left) < left then
        && t.clients[i] == Returned(Settled(s.server.stored.None?))
        && t.server.stored == Some(if s.server.stored.Some? then s.server.stored.value else c.data[i])
      else
        t.clients[i] == Returned(Failed) && t.server.stored == s.server.stored
    decreases Budget(c.maxAttempts) - s.clients[i].attempt
  {
    var left := Budget(c.maxAttempts) - s.clients[i].attempt;
    FirstThrottled(c.throttleEvery, s.server.callCount, left);
    ThrottledWithin(c.throttleEvery, s.server.callCount + 1, 0, left - 1);
    more, t := Attempt(c, run, s, i);
    if t.clients[i].Trying? {
      var mid := more;
      more, t := RunsAlone(c, mid, t, i);
    }
  }

  /** The client knows, or is about to learn, that it created the object. */
  predicate Created(p: Client) {
    p == Returned(Settled(true)) || (p.Answered? && p.response == OK)
  }

  /** The client knows, or is about to learn, that the object was there already. */
  predicate Found(p: Client) {
    p == Returned(Settled(false)) || (p.Answered? && p.response == PreconditionFailed412)
  }

  /** The object is there exactly when one client wrote it; that client alone has created it,
      and its bytes are the stored ones; whoever found it, found it there. */
  ghost predicate Consistent(c: Config, s: State) {
    && |s.clients| == |c.data|
    && (s.server.stored.Some? <==> s.writer.Some?)
    && (s.writer.Some? ==> s.writer.value < |c.data| && s.server.stored == Some(c.data[s.writer.value]))
    && (forall i :: 0 <= i < |s.clients| ==> (Created(s.clients[i]) <==> s.writer == Some(i)))
    && (forall i :: 0 <= i < |s.clients| && Found(s.clients[i]) ==> s.server.stored.Some?)
  }

  lemma StepConsistent(c: Config, s: State, e: Step)
    requires Consistent(c, s) && Enabled(c, s, e)
    ensures Consistent(c, Apply(c, s, e))
    ensures s.server.stored.Some? ==> Apply(c, s, e).server.stored == s.server.stored
  {
  }

  lemma {:induction false} RunConsistent(c: Config, run: seq<Step>)
    requires Replay(c, run).Some?
    ensures Consistent(c, Replay(c, run).value)
  {
    if run != [] {
      RunConsistent(c, run[..|run| - 1]);
      StepConsistent(c, Replay(c, run[..|run| - 1]).value, run[|run| - 1]);
    }
  }

  /** The conditional-put theorem. In any run of any number of clients on one free key, with any
      conflicts, throttling and cancellations: if some call has returned without an error then
      exactly one client has created the object, or is about to be told so; its bytes are the
      stored ones; and no call that returned an error wrote anything. */
  lemma ExactlyOneCreates(c: Config, run: seq<Step>)
    requires Replay(c, run).Some?
    ensures var s := Replay(c, run).value;
      && ((exists i :: 0 <= i < |s.clients| && s.clients[i].Returned? && s.clients[i].result.Settled?) ==>
           exists w: nat :: w < |s.clients| && OnlyCreator(s, w) && w < |c.data| && s.server.stored == Some(c.data[w]))
      && (forall i :: 0 <= i < |s.clients| && s.clients[i] == Returned(Failed) ==> s.writer != Some(i))
      && (forall i, j ::
           (0 <= i < |s.clients| && 0 <= j < |s.clients| && Created(s.clients[i]) && Created(s.clients[j])) ==> i == j)
  {
    var s := Replay(c, run).value;
    RunConsistent(c, run);
    if i :| 0 <= i < |s.clients| && s.clients[i].Returned? && s.clients[i].result.Settled? {
      assert Created(s.clients[i]) || Found(s.clients[i]);
      assert OnlyCreator(s, s.writer.value);
    }
  }

  ghost predicate OnlyCreator(s: State, w: nat) {
    w < |s.clients| && Created(s.clients[w]) && forall i :: 0 <= i < |s.clients| && Created(s.clients[i]) ==> i == w
  }

  /** Nobody is misinformed. When every call has returned, the client whose write was carried
      out, and no other, has been told that it created the object; those told that it exists
      were told the truth; and if nothing was written then every call returned an error. */
  lemma WriterIsTold(c: Config, run: seq<Step>)
    requires Replay(c, run).Some? && AllReturned(Replay(c, run).value)
    ensures var s := Replay(c, run).value;
      && (forall i :: 0 <= i < |s.clients| ==> (s.writer == Some(i) <==> s.clients[i] == Returned(Settled(true))))
      && (s.server.stored.None? <==> forall i :: 0 <= i < |s.clients| ==> s.clients[i] == Returned(Failed))
  {
    var s := Replay(c, run).value;
    RunConsistent(c, run);
    if s.server.stored.Some? {
      assert Created(s.clients[s.writer.value]);
    }
    forall i | 0 <= i < |s.clients| && s.clients[i] != Returned(Failed)
      ensures s.server.stored.Some?
    {
      assert s.clients[i] == Returned(Settled(s.clients[i].result.created));
      assert Created(s.clients[i]) || Found(s.clients[i]);
    }
  }

  ghost predicate AllReturned(s: State) {
    forall i :: 0 <= i < |s.clients| ==> s.clients[i].Returned?
  }

  /** Attempts are bounded, so every call returns. */
  function StepsLeft(c: Config, p: Client): nat {
    match p
    case Trying(a) => if a < Budget(c.maxAttempts) then 2 * (Budget(c.maxAttempts) - a) else 0
    case Answered(a, _) => if a < Budget(c.maxAttempts) then 2 * (Budget(c.maxAttempts) - a) - 1 else 0
    case Returned(_) => 0
  }

  ghost predicate InBudget(c: Config, s: State) {
    forall i :: 0 <= i < |s.clients| && !s.clients[i].Returned? ==> s.clients[i].attempt < Budget(c.maxAttempts)
  }

  lemma StepDescends(c: Config, s: State, e: Step)
    requires InBudget(c, s) && Enabled(c, s, e)
    ensures InBudget(c, Apply(c, s, e))
    ensures !e.Traffic? ==> StepsLeft(c, Apply(c, s, e).clients[e.i]) < StepsLeft(c, s.clients[e.i])
    ensures forall k :: 0 <= k < |s.clients| && (e.Traffic? || k != e.i) ==> Apply(c, s, e).clients[k] == s.clients[k]
  {
  }

  lemma {:induction false} RunInBudget(c: Config, run: seq<Step>)
    requires Replay(c, run).Some?
    ensures InBudget(c, Replay(c, run).value)
  {
    if run != [] {
      RunInBudget(c, run[..|run| - 1]);
      StepDescends(c, Replay(c, run[..|run| - 1]).value, run[|run| - 1]);
    }
  }

  function Remaining(c: Config, run: seq<Step>): nat {
    if Replay(c, run).Some? then Sum(Replay(c, run).value.clients, p => StepsLeft(c, p)) else 0
  }

  /** Any run can be continued until every call has returned. */
  lemma {:induction false} AllCanReturn(c: Config, run: seq<Step>) returns (whole: seq<Step>)
    requires Replay(c, run).Some?
    ensures run <= whole && Replay(c, whole).Some? && AllReturned(Replay(c, whole).value)
    decreases Remaining(c, run)
  {
    var s := Replay(c, run).value;
    RunConsistent(c, run);
    RunInBudget(c, run);
    whole := run;
    if !AllReturned(s) {
      var i :| 0 <= i < |s.clients| && !s.clients[i].Returned?;
      var e := if s.clients[i].Trying? then Serve(i) else Receive(i);
      var t := Apply(c, s, e);
      assert (run + [e])[..|run|] == run;
      StepDescends(c, s, e);
      assert t.clients == s.clients[i := t.clients[i]];
      SumUpdate(s.clients, i, t.clients[i], p => StepsLeft(c, p));
      whole := AllCanReturn(c, run + [e]);
    }
  }
}
