// The server of the system model, which accepts one mutation in one step, stands for the
// statement-level server: clients that talk to the latter are in a run of the system.
module ServerRefinement {
  import opened Base
  import opened SyncLog
  import P = PushProtocol
  import R = PushRefinement
  import S = SyncSystem

  // ----- a deployment: the system's clients over the statement-level server -----

  // What clients see of the server is its table, read through the codec.
  datatype Deployment = Deployment(server: P.State, world: S.World)

  // A statement of the server, or a step of the clients and the network.
  datatype Move = Statement(statement: P.Event) | ClientStep(step: S.Event)

  // A push call begins with a request that some client sent.
  ghost predicate Allowed(w: S.World, e: P.Event) { e.BeginPush? ==> S.Request(e.owner, e.mutation) in w.sent }

  ghost function Seen(server: P.State, w: S.World): S.World {
    w.(log := R.ReadableRows(server.rows), accepted := server.accepted)
  }

  ghost function Moved(d: Deployment, move: Move): Deployment {
    match move
    case Statement(e) =>
      if Allowed(d.world, e) then
        var server := P.Step(d.server, e);
        Deployment(server, Seen(server, d.world))
      else d
    case ClientStep(e) => if e.Accept? then d else d.(world := S.Step(d.world, e))
  }

  ghost function Deployed(d: Deployment, moves: seq<Move>): Deployment {
    if moves == [] then d else Moved(Deployed(d, moves[..|moves| - 1]), moves[|moves| - 1])
  }

  // ----- one statement is no step or one acceptance -----

  ghost predicate AllSent(requested: set<P.Request>, w: S.World) {
    forall r :: r in requested ==> S.Request(r.owner, r.mutation) in w.sent
  }

  // The world shows the server's table, and whatever was pushed had been sent.
  ghost predicate Shows(s: P.State, w: S.World) {
    R.Inv(s) && w.log == R.ReadableRows(s.rows) && w.accepted == s.accepted && AllSent(s.requested, w)
  }

  // Every step is possible where it stands.
  ghost predicate InTurn(w: S.World, steps: seq<S.Event>) {
    steps == [] || (
      var n := |steps| - 1;
      InTurn(w, steps[..n]) && S.Enabled(S.Run(w, steps[..n]), steps[n]))
  }

  lemma NoMutationTwice(s: P.State, row: Version)
    requires R.Inv(s) && FindMutation(s.rows, MutationOf(row)).None?
    ensures FindMutation(R.ReadableRows(s.rows), MutationOf(row)).None?
  {
    R.ReadableMutation(s.rows, MutationOf(row));
  }

  // An insert that stores its row is the system's acceptance of the same mutation.
  lemma InsertIsAcceptance(s: P.State, id: nat, sequence: nat, revision: string, createdAt: int, w: S.World) returns (step: S.Event)
    requires Shows(s, w) && P.Enabled(s, P.Insert(id, sequence, revision, createdAt))
    requires P.InsertStep(s, id, sequence, revision, createdAt).rows != s.rows
    ensures S.Enabled(w, step) && step.Accept?
    ensures S.Next(w, step) == Seen(P.InsertStep(s, id, sequence, revision, createdAt), w)
  {
    var call := s.calls[id];
    var row := P.NewRow(call, sequence, revision, createdAt);
    var a := Accepted(call.owner, call.mutation, sequence, revision, createdAt);
    step := S.Accept(S.Request(call.owner, call.mutation), sequence, revision, createdAt);
    assert P.Request(call.owner, call.mutation) in s.requested;
    forall i | 0 <= i < |w.log| ensures w.log[i].sequence < sequence && w.log[i].revision != revision {
      assert s.rows[i].sequence < row.sequence && s.rows[i].revision != row.revision;
    }
    NoMutationTwice(s, row);
    R.InsertPreservesInv(s, id, sequence, revision, createdAt);
    assert (s.accepted + [a])[..|s.accepted|] == s.accepted;
  }

  lemma OtherStatementsAccept(s: P.State, e: P.Event)
    requires P.Enabled(s, e) && R.Inv(s)
    requires !e.Insert? || P.Next(s, e).rows == s.rows
    ensures P.Next(s, e).accepted == s.accepted && R.ReadableRows(P.Next(s, e).rows) == R.ReadableRows(s.rows)
  {
    if !e.Insert? {
      R.StepKeepsHistory(s, e);
      R.StepGrowsAccepted(s, e);
    }
  }

  lemma StatementKeepsSent(s: P.State, e: P.Event, w: S.World)
    requires AllSent(s.requested, w) && Allowed(w, e)
    ensures AllSent(P.Step(s, e).requested, w)
  {
  }

  lemma StatementKeepsShown(s: P.State, e: P.Event, w: S.World)
    requires Shows(s, w) && Allowed(w, e)
    ensures Shows(P.Step(s, e), Seen(P.Step(s, e), w))
  {
    R.StepPreservesInv(s, e);
    StatementKeepsSent(s, e, w);
  }

  lemma PossibleIsAcceptance(s: P.State, e: P.Event, w: S.World) returns (steps: seq<S.Event>)
    requires Shows(s, w) && P.Enabled(s, e)
    ensures |steps| <= 1 && forall i :: 0 <= i < |steps| ==> steps[i].Accept? && S.Enabled(w, steps[i])
    ensures Seen(P.Next(s, e), w) == if steps == [] then w else S.Next(w, steps[0])
  {
    steps := [];
    if e.Insert? && P.InsertStep(s, e.id, e.sequence, e.revision, e.createdAt).rows != s.rows {
      var step := InsertIsAcceptance(s, e.id, e.sequence, e.revision, e.createdAt, w);
      steps := [step];
    } else {
      OtherStatementsAccept(s, e);
    }
  }

  lemma StatementIsAcceptance(s: P.State, e: P.Event, w: S.World) returns (steps: seq<S.Event>)
    requires Shows(s, w) && Allowed(w, e)
    ensures Shows(P.Step(s, e), Seen(P.Step(s, e), w))
    ensures |steps| <= 1 && forall i :: 0 <= i < |steps| ==> steps[i].Accept? && S.Enabled(w, steps[i])
    ensures Seen(P.Step(s, e), w) == if steps == [] then w else S.Next(w, steps[0])
  {
    StatementKeepsShown(s, e, w);
    steps := [];
    if P.Enabled(s, e) {
      steps := PossibleIsAcceptance(s, e, w);
    }
  }

  lemma AppendStep(w: S.World, steps: seq<S.Event>, step: S.Event)
    ensures S.Run(w, steps + [step]) == S.Step(S.Run(w, steps), step)
    ensures InTurn(w, steps) && S.Enabled(S.Run(w, steps), step) ==> InTurn(w, steps + [step])
  {
    assert (steps + [step])[..|steps|] == steps;
  }

  lemma EarlierWasSent(s: P.State, e: P.Event, w: S.World)
    requires AllSent(P.Step(s, e).requested, w)
    ensures AllSent(s.requested, w) && (P.Enabled(s, e) ==> Allowed(w, e))
  {
    assert s.requested <= P.Step(s, e).requested;
    if P.Enabled(s, e) && e.BeginPush? {
      assert P.Request(e.owner, e.mutation) in P.Next(s, e).requested;
    }
  }

  // ----- whole runs -----

  // Whatever statements of pushes, rotations and retirements interleave, there are acceptances,
  // each possible in its turn, with which the system's server reaches the log the stored rows read as.
  lemma {:induction false} InterleavingsAreAcceptances(w: S.World, events: seq<P.Event>) returns (steps: seq<S.Event>)
    requires w.log == [] && w.accepted == [] && AllSent(P.Run(P.INITIAL, events).requested, w)
    ensures InTurn(w, steps) && forall i :: 0 <= i < |steps| ==> steps[i].Accept?
    ensures S.Run(w, steps) == Seen(P.Run(P.INITIAL, events), w)
    ensures R.Inv(P.Run(P.INITIAL, events))
  {
    steps := [];
    if events == [] {
      assert Seen(P.INITIAL, w) == w;
    } else {
      var n := |events| - 1;
      var s := P.Run(P.INITIAL, events[..n]);
      EarlierWasSent(s, events[n], w);
      steps := InterleavingsAreAcceptances(w, events[..n]);
      steps := OneMoreStatement(w, steps, s, events[n]);
    }
  }

  lemma OneMoreStatement(w: S.World, before: seq<S.Event>, s: P.State, e: P.Event) returns (steps: seq<S.Event>)
    requires InTurn(w, before) && S.Run(w, before) == Seen(s, w) && R.Inv(s) && AllSent(s.requested, w)
    requires P.Enabled(s, e) ==> Allowed(w, e)
    ensures InTurn(w, steps) && S.Run(w, steps) == Seen(P.Step(s, e), w) && R.Inv(P.Step(s, e))
    ensures (forall i :: 0 <= i < |before| ==> before[i].Accept?) ==> forall i :: 0 <= i < |steps| ==> steps[i].Accept?
  {
    steps := before;
    if P.Enabled(s, e) {
      var more := StatementIsAcceptance(s, e, Seen(s, w));
      if more != [] {
        AppendStep(w, before, more[0]);
        steps := before + [more[0]];
      }
    }
  }

  lemma ClientStepKeepsServer(w: S.World, e: S.Event)
    requires !e.Accept?
    ensures S.Step(w, e).log == w.log && S.Step(w, e).accepted == w.accepted && w.sent <= S.Step(w, e).sent
  {
  }

  lemma MoveIsStep(d: Deployment, move: Move) returns (steps: seq<S.Event>)
    requires Shows(d.server, d.world)
    ensures Shows(Moved(d, move).server, Moved(d, move).world)
    ensures |steps| <= 1 && forall i :: 0 <= i < |steps| ==> S.Enabled(d.world, steps[i])
    ensures Moved(d, move).world == if steps == [] then d.world else S.Next(d.world, steps[0])
  {
    steps := [];
    match move {
      case Statement(e) =>
        if Allowed(d.world, e) {
          steps := StatementIsAcceptance(d.server, e, d.world);
        }
      case ClientStep(e) =>
        if !e.Accept? {
          ClientStepKeepsServer(d.world, e);
          if S.Enabled(d.world, e) {
            steps := [e];
          }
        }
    }
  }

  // Clients that talk to the statement-level server are in a run of the system: whatever
  // statements and client steps interleave, what clients and server hold is what a run of the
  // system, with every step possible in its turn, leads to. So every result about the runs of
  // the system holds of the deployment.
  lemma {:induction false} DeploymentsAreSystemRuns(w: S.World, moves: seq<Move>) returns (steps: seq<S.Event>)
    requires S.Initial(w)
    ensures var d := Deployed(Deployment(P.INITIAL, w), moves);
      && InTurn(w, steps) && d.world == S.Run(w, steps)
      && d.world.log == R.ReadableRows(d.server.rows) && Shows(d.server, d.world)
  {
    steps := [];
    if moves != [] {
      var n := |moves| - 1;
      steps := DeploymentsAreSystemRuns(w, moves[..n]);
      var d := Deployed(Deployment(P.INITIAL, w), moves[..n]);
      var more := MoveIsStep(d, moves[n]);
      if more != [] {
        AppendStep(w, steps, more[0]);
        steps := steps + [more[0]];
      }
    }
  }
}
