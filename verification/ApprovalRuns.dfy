/** Runs of evaluations (src/sddgov/autonomy.py) by any number of agents over one nonce ledger.

    Each agent has any number of local stores. An evaluation is taken whole, or broken into the steps at
    which it can interleave with others or die: reaching the point where the Broker is asked, the
    Broker's handling of that request, and recording the answer. Anyone may rewrite any store at any
    moment and send the Broker any bytes; the decision lock is not relied on. */
module ApprovalRuns {
  import opened Common
  import opened Operations
  import opened NonceLedger
  import opened Approval
  import opened Escalation
  import ExternalActions

  // ---------------------------------------------------------------- the agents and the Broker

  /** A local directory: decisions and owner actions. */
  datatype Local = Local(rows: seq<Row>, actions: seq<ExternalActions.Row>)

  /** An evaluation that has reached the Broker: the request, the row it found good, and when. */
  datatype Case = Case(root: string, rows: seq<Row>, k: nat, receipt: Receipt, q: Request, now: int)

  datatype Phase = Idle | Asking(c: Case) | Told(c: Case, ticket: nat)

  /** A CONTINUE that reported a consumed approval, and the payload it authorised. */
  datatype Grant = Grant(agent: nat, c: Case, ticket: nat, authorised: Payload)

  datatype System = System(
    ledger: Ledger, stores: map<string, Local>, agents: map<nat, Phase>, grants: seq<Grant>)

  datatype Step =
    | Rewrite(root: string, local: Local)                            // anyone edits a local directory
    | Import(root: string, envelope: Envelope, now: int)
    | Whole(agent: nat, root: string, q: Request, m: Moment)         // an evaluation in one go
    | Begin(agent: nat, root: string, q: Request, now: int)          // an evaluation, up to asking the Broker
    | Serve(agent: nat, at: string, crash: Option<nat>, heard: bool) // the Broker handles that request
    | Noise(event: Event)                                            // the Broker handles somebody else's bytes
    | Finish(agent: nat)                                             // the evaluation returns
    | Crash(agent: nat)

  function PhaseOf(s: System, agent: nat): Phase {
    if agent in s.agents then s.agents[agent] else Idle
  }

  function LocalAt(s: System, root: string): Local {
    if root in s.stores then s.stores[root] else Local([], [])
  }

  function StoreAt(s: System, root: string): Store {
    Store(LocalAt(s, root).rows, LocalAt(s, root).actions, s.ledger)
  }

  function CaseOf(s: System, root: string, c: Choice, q: Request, now: int): Case
    requires c.Ask?
  {
    Case(root, LocalAt(s, root).rows, c.k, c.receipt, q, now)
  }

  function DoWhole(env: Env, s: System, agent: nat, root: string, q: Request, m: Moment): System {
    var e := Evaluate(env, StoreAt(s, root), q, m);
    var c := Asks(env, LocalAt(s, root).rows, q, m.now);
    System(e.s.ledger, s.stores[root := Local(e.s.rows, e.s.actions)], s.agents,
           if e.r.Continue? && e.r.authorised.Some? && c.Some?
           then s.grants + [Grant(agent, CaseOf(s, root, c.value, q, m.now), |s.ledger.written|, e.r.authorised.value)]
           else s.grants)
  }

  function DoFinish(s: System, agent: nat): System {
    var p := PhaseOf(s, agent);
    if !p.Told? then s else
      var local := LocalAt(s, p.c.root);
      System(s.ledger,
             if p.c.k < |p.c.rows| then s.stores[p.c.root := local.(rows := Approval.Spent(p.c.rows, p.c.k))] else s.stores,
             s.agents[agent := Idle], s.grants + [Grant(agent, p.c, p.ticket, p.c.receipt.payload)])
  }

  function Do(env: Env, s: System, step: Step): System {
    match step
    case Rewrite(root, local) => s.(stores := s.stores[root := local])
    case Import(root, e, now) =>
      var local := LocalAt(s, root);
      s.(stores := s.stores[root := local.(rows := ImportApproval(env.trust, local.rows, e, now))])
    case Whole(agent, root, q, m) => if IsStamp(m.at) then DoWhole(env, s, agent, root, q, m) else s
    case Begin(agent, root, q, now) =>
      var c := Asks(env, LocalAt(s, root).rows, q, now);
      if PhaseOf(s, agent).Idle? && c.Some? then s.(agents := s.agents[agent := Asking(CaseOf(s, root, c.value, q, now))])
      else s
    case Serve(agent, at, crash, heard) =>
      if !PhaseOf(s, agent).Asking? || !IsStamp(at) then s else
        var c := PhaseOf(s, agent).c;
        var (ledger, answer) := Next(s.ledger, Event(RequestFor(env.trust, c.receipt), at, crash));
        s.(ledger := ledger,
           agents := s.agents[agent := if answer == Consumed && heard then Told(c, |s.ledger.written|) else Idle])
    case Noise(event) =>
      if IsStamp(event.now) then s.(ledger := Next(s.ledger, event).0) else s
    case Finish(agent) => DoFinish(s, agent)
    case Crash(agent) => s.(agents := s.agents[agent := Idle])
  }

  function Perform(env: Env, s: System, steps: seq<Step>): System
    decreases |steps|
  {
    if steps == [] then s else Do(env, Perform(env, s, steps[..|steps| - 1]), steps[|steps| - 1])
  }

  function Start(stores: map<string, Local>): System {
    System(EMPTY, stores, map[], [])
  }

  // ---------------------------------------------------------------- the invariant

  /** The evaluation behind a case: its row was approved for the payload of its request, which fits the
      request's category and effects. */
  predicate Good(t: Trust, c: Case) {
    && c.k < |c.rows| && PayloadOf(c.q).Some?
    && Approved(t, c.rows[c.k], c.receipt, PayloadOf(c.q).value, c.now)
    && PayloadFits(PayloadOf(c.q).value, Category(c.q), Declared(c.q))
    && TextOf(c.q, "approval_id") == Some(c.receipt.approvalId)
    && TextOf(c.q, "operation_id") == Some(c.receipt.operationId)
  }

  /** The ledger line a ticket stands for is the one this case asked for. */
  predicate Ticketed(t: Trust, g: Ledger, c: Case, ticket: nat) {
    ticket < |g.written| && g.written[ticket] == Approval.LineOf(t, c.receipt, g.written[ticket].at)
  }

  predicate GrantOk(t: Trust, s: System, k: nat)
    requires k < |s.grants|
  {
    && Good(t, s.grants[k].c) && Ticketed(t, s.ledger, s.grants[k].c, s.grants[k].ticket)
    && s.grants[k].authorised == s.grants[k].c.receipt.payload
  }

  predicate AgentOk(t: Trust, s: System, a: nat) {
    match PhaseOf(s, a)
    case Idle => true
    case Asking(c) => Good(t, c)
    case Told(c, ticket) => Good(t, c) && Ticketed(t, s.ledger, c, ticket)
  }

  /** No ticket is held twice, by grants or by agents about to be granted. */
  ghost predicate Distinct(s: System) {
    && (forall j, k :: 0 <= j < k < |s.grants| ==> s.grants[j].ticket != s.grants[k].ticket)
    && (forall k, a: nat :: 0 <= k < |s.grants| && PhaseOf(s, a).Told? ==> s.grants[k].ticket != PhaseOf(s, a).ticket)
    && (forall a: nat, b: nat :: a != b && PhaseOf(s, a).Told? && PhaseOf(s, b).Told? ==> PhaseOf(s, a).ticket != PhaseOf(s, b).ticket)
  }

  ghost predicate Safe(t: Trust, s: System) {
    && Sound(s.ledger)
    && (forall k :: 0 <= k < |s.grants| ==> GrantOk(t, s, k))
    && (forall a: nat :: AgentOk(t, s, a))
    && Distinct(s)
  }

  /** An evaluation that reaches the Broker does so with a good case. */
  lemma AskedIsGood(env: Env, s: System, root: string, q: Request, now: int)
    requires Asks(env, LocalAt(s, root).rows, q, now).Some?
    ensures Good(env.trust, CaseOf(s, root, Asks(env, LocalAt(s, root).rows, q, now).value, q, now))
  {
    hide ValidPayload, Stopped, Choose, Approved;
    var rows := LocalAt(s, root).rows;
    ChosenIsApproved(env.trust, rows, TextOf(q, "approval_id").value, TextOf(q, "operation_id").value, PayloadOf(q).value, now);
  }

  lemma LedgerGrows(t: Trust, g: Ledger, h: Ledger, c: Case, ticket: nat)
    requires g.written <= h.written && Ticketed(t, g, c, ticket)
    ensures Ticketed(t, h, c, ticket)
  {}

  /** A step of the ledger alone keeps every ticket good. */
  lemma LaterLedger(t: Trust, s: System, u: System)
    requires Safe(t, s) && Sound(u.ledger) && s.ledger.written <= u.ledger.written && u.grants == s.grants
    requires forall a: nat :: PhaseOf(u, a) == PhaseOf(s, a) || PhaseOf(u, a).Idle?
    ensures Safe(t, u)
  {
    hide Sound, Good, Ticketed;
    forall k | 0 <= k < |u.grants| ensures GrantOk(t, u, k) {
      assert GrantOk(t, s, k);
      LedgerGrows(t, s.ledger, u.ledger, s.grants[k].c, s.grants[k].ticket);
    }
    forall a: nat ensures AgentOk(t, u, a) {
      assert AgentOk(t, s, a);
      if PhaseOf(u, a).Told? {
        LedgerGrows(t, s.ledger, u.ledger, PhaseOf(s, a).c, PhaseOf(s, a).ticket);
      }
    }
  }

  lemma AsBefore(t: Trust, s: System, u: System)
    requires Safe(t, s) && u.ledger == s.ledger && u.grants == s.grants
    requires forall a: nat :: PhaseOf(u, a) == PhaseOf(s, a) || PhaseOf(u, a).Idle?
    ensures Safe(t, u)
  {
    hide Sound;
    LaterLedger(t, s, u);
  }

  lemma BeginKeeps(t: Trust, s: System, agent: nat, c: Case)
    requires Safe(t, s) && PhaseOf(s, agent).Idle? && Good(t, c)
    ensures Safe(t, s.(agents := s.agents[agent := Asking(c)]))
  {
    hide Sound, Good, Ticketed;
    var u := s.(agents := s.agents[agent := Asking(c)]);
    forall a: nat | PhaseOf(u, a).Told? ensures PhaseOf(u, a) == PhaseOf(s, a) {}
    forall k | 0 <= k < |u.grants| ensures GrantOk(t, u, k) {
      assert GrantOk(t, s, k);
    }
    forall a: nat ensures AgentOk(t, u, a) {
      assert AgentOk(t, s, a);
    }
  }

  /** A CONSUMED answer is a new line of the ledger. */
  lemma NewTicket(t: Trust, g: Ledger, c: Case, at: string, crash: Option<nat>)
    requires Sound(g) && IsStamp(at) && Next(g, Event(RequestFor(t, c.receipt), at, crash)).1 == Consumed
    ensures Ticketed(t, Next(g, Event(RequestFor(t, c.receipt), at, crash)).0, c, |g.written|)
  {
    hide Sound, Next, BrokerRequest, IsStamp;
    ConsumedAppends(g, c.receipt.nonce, t.receiptHash(c.receipt), t.payloadHash(c.receipt.payload), at, crash);
  }

  lemma Served(env: Env, s: System, agent: nat, at: string, crash: Option<nat>, heard: bool)
    requires PhaseOf(s, agent).Asking? && IsStamp(at)
    ensures
      var c := PhaseOf(s, agent).c;
      var (ledger, answer) := Next(s.ledger, Event(RequestFor(env.trust, c.receipt), at, crash));
      var told := if answer == Consumed && heard then Told(c, |s.ledger.written|) else Idle;
      Do(env, s, Serve(agent, at, crash, heard)) == s.(ledger := ledger, agents := s.agents[agent := told])
  {
    hide Next, RequestFor, IsStamp;
  }

  lemma AskingIsGood(t: Trust, s: System, agent: nat)
    requires Safe(t, s) && PhaseOf(s, agent).Asking?
    ensures Good(t, PhaseOf(s, agent).c)
  {
    hide Sound, Good, Distinct;
    assert AgentOk(t, s, agent);
  }

  lemma ServeKeeps(env: Env, s: System, agent: nat, at: string, crash: Option<nat>, heard: bool)
    requires Safe(env.trust, s) && PhaseOf(s, agent).Asking? && IsStamp(at)
    ensures Safe(env.trust, Do(env, s, Serve(agent, at, crash, heard)))
  {
    hide Sound, Good, Ticketed, Next, RequestFor, IsStamp, Safe, Do, Perform;
    Served(env, s, agent, at, crash, heard);
    var t, c := env.trust, PhaseOf(s, agent).c;
    SafeLedger(t, s);
    AskingIsGood(t, s, agent);
    var e := Event(RequestFor(t, c.receipt), at, crash);
    var (ledger, answer) := Next(s.ledger, e);
    NextKeeps(s.ledger, e);
    var quiet := s.(ledger := ledger, agents := s.agents[agent := Idle]);
    LaterLedger(t, s, quiet);
    if answer == Consumed && heard {
      NewTicket(t, s.ledger, c, at, crash);
      TicketKeeps(t, s, quiet, agent, c);
    }
  }

  /** Every ticket given out before is smaller than the next one. */
  lemma TicketsAreOld(t: Trust, s: System)
    requires Safe(t, s)
    ensures forall k :: 0 <= k < |s.grants| ==> s.grants[k].ticket < |s.ledger.written|
    ensures forall a: nat :: PhaseOf(s, a).Told? ==> PhaseOf(s, a).ticket < |s.ledger.written|
  {
    hide Sound, Good;
    forall k | 0 <= k < |s.grants| ensures s.grants[k].ticket < |s.ledger.written| {
      assert GrantOk(t, s, k);
    }
    forall a: nat | PhaseOf(s, a).Told? ensures PhaseOf(s, a).ticket < |s.ledger.written| {
      assert AgentOk(t, s, a);
    }
  }

  lemma TicketKeeps(t: Trust, s: System, quiet: System, agent: nat, c: Case)
    requires Safe(t, s) && Safe(t, quiet) && Good(t, c)
    requires quiet.grants == s.grants && quiet.agents == s.agents[agent := Idle]
    requires Ticketed(t, quiet.ledger, c, |s.ledger.written|)
    ensures Safe(t, quiet.(agents := s.agents[agent := Told(c, |s.ledger.written|)]))
  {
    hide Sound, Good, Ticketed;
    var u := quiet.(agents := s.agents[agent := Told(c, |s.ledger.written|)]);
    TicketsAreOld(t, s);
    forall k | 0 <= k < |u.grants| ensures GrantOk(t, u, k) {
      assert GrantOk(t, quiet, k);
    }
    forall a: nat ensures AgentOk(t, u, a) {
      assert AgentOk(t, quiet, a);
    }
    forall a: nat | a != agent ensures PhaseOf(u, a) == PhaseOf(quiet, a) == PhaseOf(s, a) {}
    TicketsDistinct(quiet, u, agent, |s.ledger.written|);
  }

  lemma TicketsDistinct(quiet: System, u: System, agent: nat, ticket: nat)
    requires Distinct(quiet) && u.grants == quiet.grants
    requires PhaseOf(u, agent).Told? && PhaseOf(u, agent).ticket == ticket
    requires forall a: nat :: a != agent ==> PhaseOf(u, a) == PhaseOf(quiet, a)
    requires forall k :: 0 <= k < |u.grants| ==> u.grants[k].ticket < ticket
    requires forall a: nat :: a != agent && PhaseOf(u, a).Told? ==> PhaseOf(u, a).ticket < ticket
    ensures Distinct(u)
  {}

  lemma FinishKeeps(t: Trust, s: System, agent: nat)
    requires Safe(t, s) && PhaseOf(s, agent).Told?
    ensures Safe(t, DoFinish(s, agent))
  {
    hide Sound, Good, Ticketed;
    var u := DoFinish(s, agent);
    assert AgentOk(t, s, agent);
    forall k | 0 <= k < |u.grants| ensures GrantOk(t, u, k) {
      if k < |s.grants| { assert GrantOk(t, s, k); }
    }
    forall a: nat ensures AgentOk(t, u, a) {
      assert AgentOk(t, s, a);
    }
    assert Distinct(u) by { GrantDistinct(s, u, agent); }
  }

  lemma GrantDistinct(s: System, u: System, agent: nat)
    requires Distinct(s) && PhaseOf(s, agent).Told? && u.agents == s.agents[agent := Idle]
    requires |u.grants| == |s.grants| + 1 && u.grants[..|s.grants|] == s.grants
    requires u.grants[|s.grants|].ticket == PhaseOf(s, agent).ticket
    ensures Distinct(u)
  {
    assert forall k :: 0 <= k < |s.grants| ==> u.grants[k] == s.grants[k];
    forall a: nat | PhaseOf(u, a).Told? ensures a != agent && PhaseOf(u, a) == PhaseOf(s, a) {}
  }

  /** A whole evaluation either grants on a new line of the ledger or grants nothing. */
  lemma WholeKeeps(env: Env, s: System, agent: nat, root: string, q: Request, m: Moment)
    requires Safe(env.trust, s) && IsStamp(m.at)
    ensures Safe(env.trust, DoWhole(env, s, agent, root, q, m))
  {
    hide Sound, Good, Ticketed, Evaluate, Next, RequestFor, IsStamp, Asks;
    var t, u := env.trust, DoWhole(env, s, agent, root, q, m);
    var store, c := StoreAt(s, root), Asks(env, LocalAt(s, root).rows, q, m.now);
    if c.None? {
      UnaskedEvaluation(env, store, q, m);
      AsBefore(t, s, u);
    } else {
      AskedEvaluation(env, store, q, m);
      AskedIsGood(env, s, root, q, m.now);
      var case_ := CaseOf(s, root, c.value, q, m.now);
      var e := Event(RequestFor(t, c.value.receipt), m.at, m.crash);
      NextKeeps(s.ledger, e);
      var quiet := u.(grants := s.grants);
      LaterLedger(t, s, quiet);
      if Next(s.ledger, e).1 == Consumed && m.heard {
        NewTicket(t, s.ledger, case_, m.at, m.crash);
        GrantKeeps(t, s, quiet, Grant(agent, case_, |s.ledger.written|, c.value.receipt.payload));
      }
    }
  }

  lemma GrantKeeps(t: Trust, s: System, quiet: System, g: Grant)
    requires Safe(t, s) && Safe(t, quiet) && quiet.grants == s.grants && quiet.agents == s.agents
    requires Good(t, g.c) && g.ticket == |s.ledger.written| && Ticketed(t, quiet.ledger, g.c, g.ticket)
    requires g.authorised == g.c.receipt.payload
    ensures Safe(t, quiet.(grants := s.grants + [g]))
  {
    hide Sound, Good, Ticketed;
    var u := quiet.(grants := s.grants + [g]);
    TicketsAreOld(t, s);
    forall k | 0 <= k < |u.grants| ensures GrantOk(t, u, k) {
      if k < |s.grants| { assert GrantOk(t, quiet, k); }
    }
    forall a: nat ensures AgentOk(t, u, a) {
      assert AgentOk(t, quiet, a);
    }
    forall a: nat ensures PhaseOf(u, a) == PhaseOf(s, a) {}
  }

  /** Every step, of an agent, of the Broker or of anyone rewriting a store, keeps the system safe. */
  lemma StepKeeps(env: Env, s: System, step: Step)
    requires Safe(env.trust, s)
    ensures Safe(env.trust, Do(env, s, step))
  {
    hide Sound, Good, Ticketed, Next, Asks, IsStamp, Safe, ImportApproval, DoWhole, DoFinish;
    match step
    case Rewrite(_, _) => AsBefore(env.trust, s, Do(env, s, step));
    case Import(_, _, _) => AsBefore(env.trust, s, Do(env, s, step));
    case Whole(agent, root, q, m) =>
      if IsStamp(m.at) {
        WholeKeeps(env, s, agent, root, q, m);
      }
    case Begin(agent, root, q, now) =>
      if PhaseOf(s, agent).Idle? && Asks(env, LocalAt(s, root).rows, q, now).Some? {
        AskedIsGood(env, s, root, q, now);
        BeginKeeps(env.trust, s, agent, CaseOf(s, root, Asks(env, LocalAt(s, root).rows, q, now).value, q, now));
      }
    case Serve(agent, at, crash, heard) =>
      if PhaseOf(s, agent).Asking? && IsStamp(at) {
        ServeKeeps(env, s, agent, at, crash, heard);
      }
    case Noise(event) =>
      if IsStamp(event.now) {
        assert Sound(s.ledger) by { SafeLedger(env.trust, s); }
        NextKeeps(s.ledger, event);
        LaterLedger(env.trust, s, Do(env, s, step));
      }
    case Finish(agent) =>
      if PhaseOf(s, agent).Told? {
        FinishKeeps(env.trust, s, agent);
      } else {
        assert DoFinish(s, agent) == s by { NothingToFinish(s, agent); }
      }
    case Crash(agent) => AsBefore(env.trust, s, Do(env, s, step));
  }

  lemma SafeLedger(t: Trust, s: System)
    requires Safe(t, s)
    ensures Sound(s.ledger)
  {}

  lemma NothingToFinish(s: System, agent: nat)
    requires !PhaseOf(s, agent).Told?
    ensures DoFinish(s, agent) == s
  {}

  lemma {:induction false} RunIsSafe(env: Env, stores: map<string, Local>, steps: seq<Step>)
    ensures Safe(env.trust, Perform(env, Start(stores), steps))
    decreases |steps|
  {
    hide Do, Sound;
    if steps == [] {
      EmptyIsSound();
    } else {
      RunIsSafe(env, stores, steps[..|steps| - 1]);
      StepKeeps(env, Perform(env, Start(stores), steps[..|steps| - 1]), steps[|steps| - 1]);
    }
  }

  // ---------------------------------------------------------------- the theorems

  /** At most once, and exactly what was signed and asked for. Over every run of evaluations by any
      number of agents, with any initial stores, any rewriting of stores, any bytes sent to the Broker
      and a crash anywhere, two consumed CONTINUEs never share a nonce; and the payload each one
      authorises is the one its request asked for and the one the owner signed, of the request's
      category and effects, under a signature that verified within its validity window. */
  lemma AtMostOnce(env: Env, stores: map<string, Local>, steps: seq<Step>)
    requires CollisionFree(env.trust)
    ensures
      var g := Perform(env, Start(stores), steps).grants;
      && (forall j, k :: 0 <= j < k < |g| ==> g[j].c.receipt.nonce != g[k].c.receipt.nonce)
      && (forall k :: 0 <= k < |g| ==>
            && Good(env.trust, g[k].c)
            && PayloadOf(g[k].c.q) == Some(g[k].authorised) && g[k].authorised == g[k].c.receipt.payload)
  {
    hide Perform, Sound;
    RunIsSafe(env, stores, steps);
    var s := Perform(env, Start(stores), steps);
    forall j, k | 0 <= j < k < |s.grants| ensures s.grants[j].c.receipt.nonce != s.grants[k].c.receipt.nonce {
      assert GrantOk(env.trust, s, j) && GrantOk(env.trust, s, k);
      RecordsDiffer(s.ledger, s.grants[j].ticket, s.grants[k].ticket);
    }
    forall k | 0 <= k < |s.grants|
      ensures Good(env.trust, s.grants[k].c) && PayloadOf(s.grants[k].c.q) == Some(s.grants[k].authorised)
    {
      assert GrantOk(env.trust, s, k);
    }
  }

  lemma RecordsDiffer(g: Ledger, j: nat, k: nat)
    requires Sound(g) && j < |g.written| && k < |g.written| && j != k
    ensures g.written[j].nonce != g.written[k].nonce
  {}

  /** Begin, Serve and Finish in a row are the evaluation taken whole: same ledger, same decisions, and a
      grant exactly when it authorises. */
  lemma UndisturbedIsWhole(env: Env, s: System, agent: nat, root: string, q: Request, m: Moment)
    requires PhaseOf(s, agent).Idle? && IsStamp(m.at) && Asks(env, LocalAt(s, root).rows, q, m.now).Some?
    ensures
      var whole := Do(env, s, Whole(agent, root, q, m));
      var steps := Do(env, Do(env, Do(env, s, Begin(agent, root, q, m.now)), Serve(agent, m.at, m.crash, m.heard)), Finish(agent));
      steps.ledger == whole.ledger && steps.grants == whole.grants && LocalAt(steps, root) == LocalAt(whole, root)
  {
    hide Evaluate, Next, RequestFor, IsStamp, Asks;
    AskedEvaluation(env, StoreAt(s, root), q, m);
  }
}
