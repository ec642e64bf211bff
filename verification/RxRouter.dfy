/** Receive routing: two endpoints, at most one operation, one completion signal.
    Operations are not concurrent, as in the station. */
module RxRouter {
  import opened Basics

  datatype Side = Foreground | Background

  function Opposite(side: Side): Side { if side.Foreground? then Background else Foreground }

  datatype Operation =
    | Authenticating(address: nat)
    | Associating(address: nat)
    | CryptoHandshake(address: nat)
    | Scanning

  datatype Kind = Authentication | AssociationResponse | Beacon | ProbeResponse | EapolKey | OtherKind

  datatype Frame = Frame(kind: Kind, body: nat)

  predicate Relevant(op: Operation, f: Frame) {
    match op
    case Scanning => f.kind.Beacon? || f.kind.ProbeResponse?
    case Authenticating(_) => f.kind.Authentication?
    case Associating(_) => f.kind.AssociationResponse?
    case CryptoHandshake(_) => f.kind.EapolKey?
  }

  /** What the task behind an endpoint is doing: nothing, awaiting the signal in
      `start_operation`, or holding the guard of its operation. */
  datatype Task = Idle | Waiting(wanted: Operation) | Holding

  datatype Two<T> = Two(fg: T, bg: T) {
    function Get(side: Side): T { if side.Foreground? then fg else bg }
    function Set(side: Side, x: T): Two<T> { if side.Foreground? then Two(x, bg) else Two(fg, x) }
  }

  datatype Router = Router(ops: Two<Option<Operation>>, signal: bool, tasks: Two<Task>, queues: Two<seq<Frame>>)

  function Fresh(): Router { Router(Two(None, None), false, Two(Idle, Idle), Two([], [])) }

  datatype Action =
    | TryStart(side: Side, op: Operation)
    | Start(side: Side, op: Operation)
    | Resume(side: Side)
    | CancelWait(side: Side)
    | Transition(side: Side, op: Operation)
    | DropGuard(side: Side)
    | Route(frame: Frame)
    | Receive(side: Side)

  /** Ownership of endpoints and guards; nothing about other operations. */
  predicate Enabled(r: Router, a: Action) {
    match a
    case TryStart(side, _) => r.tasks.Get(side).Idle?
    case Start(side, _) => r.tasks.Get(side).Idle?
    case Resume(side) => r.tasks.Get(side).Waiting?
    case CancelWait(side) => r.tasks.Get(side).Waiting?
    case Transition(side, _) => r.tasks.Get(side).Holding?
    case DropGuard(side) => r.tasks.Get(side).Holding?
    case Route(_) => true
    case Receive(side) => r.queues.Get(side) != []
  }

  predicate CanStart(r: Router, side: Side) { r.ops.Get(Opposite(side)).None? }

  /** `start_operation_internal`: clear the signal, set the operation. */
  function Begin(r: Router, side: Side, op: Operation): Router {
    r.(signal := false, ops := r.ops.Set(side, Some(op)), tasks := r.tasks.Set(side, Holding))
  }

  function RouteTo(r: Router, f: Frame): Side {
    if r.ops.fg.Some? && Relevant(r.ops.fg.value, f) then Foreground else Background
  }

  function Apply(depth: nat, r: Router, a: Action): Router
    requires Enabled(r, a)
  {
    match a
    case TryStart(side, op) => if CanStart(r, side) then Begin(r, side, op) else r
    case Start(side, op) =>
      if CanStart(r, side) then Begin(r, side, op)
      else if r.signal then Begin(r.(signal := false), side, op)
      else r.(tasks := r.tasks.Set(side, Waiting(op)))
    case Resume(side) =>
      if r.signal then Begin(r.(signal := false), side, r.tasks.Get(side).wanted) else r
    case CancelWait(side) => r.(tasks := r.tasks.Set(side, Idle))
    case Transition(side, op) =>
      (match r.ops.Get(side)
       case None => r
       case Some(previous) =>
         var stopped := r.(ops := r.ops.Set(side, None));
         if CanStart(stopped, side) then Begin(stopped, side, op) else Begin(stopped, side, previous))
    case DropGuard(side) =>
      r.(ops := r.ops.Set(side, None), signal := true, tasks := r.tasks.Set(side, Idle))
    case Route(f) =>
      var side := RouteTo(r, f);
      var q := r.queues.Get(side);
      if |q| < depth then r.(queues := r.queues.Set(side, q + [f])) else r
    case Receive(side) => r.(queues := r.queues.Set(side, r.queues.Get(side)[1..]))
  }

  /** Exclusion, and what makes waiting without a recheck safe. */
  ghost predicate Inv(r: Router) {
    && !(r.ops.fg.Some? && r.ops.bg.Some?)
    && (r.signal ==> r.ops.fg.None? && r.ops.bg.None?)
    && SideInv(r, Foreground) && SideInv(r, Background)
  }

  ghost predicate SideInv(r: Router, side: Side) {
    && (r.tasks.Get(side).Holding? <==> r.ops.Get(side).Some?)
    && (r.tasks.Get(side).Waiting? ==> r.ops.Get(Opposite(side)).Some? || r.signal)
  }

  lemma StepInv(depth: nat, r: Router, a: Action)
    requires Inv(r) && Enabled(r, a)
    ensures Inv(Apply(depth, r, a))
  {
  }

  predicate IsRun(depth: nat, rs: seq<Router>, acts: seq<Action>) {
    && |rs| == |acts| + 1 && rs[0] == Fresh()
    && forall i :: 0 <= i < |acts| ==> Enabled(rs[i], acts[i]) && rs[i + 1] == Apply(depth, rs[i], acts[i])
  }

  lemma {:induction false} RunInv(depth: nat, rs: seq<Router>, acts: seq<Action>, i: nat)
    requires IsRun(depth, rs, acts) && i < |rs|
    ensures Inv(rs[i])
  {
    if i != 0 {
      hide Apply, Inv;
      RunInv(depth, rs, acts, i - 1);
      StepInv(depth, rs[i - 1], acts[i - 1]);
    }
  }

  /** In every run: at most one operation is active; a task let through by the
      signal finds the other side free although it does not look again; a
      transition always takes effect; and whoever waits has someone to wait for. */
  lemma Exclusion(depth: nat, rs: seq<Router>, acts: seq<Action>, i: nat)
    requires IsRun(depth, rs, acts) && i < |acts|
    ensures !(rs[i].ops.fg.Some? && rs[i].ops.bg.Some?)
    ensures acts[i].Resume? && rs[i].signal ==> CanStart(rs[i], acts[i].side)
    ensures acts[i].Start? && !CanStart(rs[i], acts[i].side) ==> !rs[i].signal
    ensures acts[i].Transition? ==> rs[i + 1].ops.Get(acts[i].side) == Some(acts[i].op)
    ensures forall side :: rs[i].tasks.Get(side).Waiting? ==>
              rs[i].tasks.Get(Opposite(side)).Holding? || rs[i].signal
  {
    RunInv(depth, rs, acts, i);
  }

  /** A waiting task is let through as soon as it is polled after the other side
      finishes, and never before. */
  lemma WaitingEndsWithCompletion(depth: nat, rs: seq<Router>, acts: seq<Action>, i: nat, side: Side)
    requires IsRun(depth, rs, acts) && i < |rs| && rs[i].tasks.Get(side).Waiting?
    ensures Apply(depth, rs[i], Resume(side)).tasks.Get(side).Holding? <==> rs[i].ops.Get(Opposite(side)).None?
  {
    RunInv(depth, rs, acts, i);
  }

  // ------------------------------------------------------------------- queues

  /** Action `a` puts its frame into the queue of `side`: foreground exactly for
      frames that the foreground operation asks for, and only while there is room. */
  predicate Lands(depth: nat, r: Router, side: Side, a: Action) {
    && a.Route? && |r.queues.Get(side)| < depth
    && (side.Foreground? <==> r.ops.fg.Some? && Relevant(r.ops.fg.value, a.frame))
  }

  /** The frames that landed at `side` in the first `i` steps ... */
  function Arrived(depth: nat, rs: seq<Router>, acts: seq<Action>, side: Side, i: nat): seq<Frame>
    requires i <= |acts| < |rs|
  {
    if i == 0 then [] else
      Arrived(depth, rs, acts, side, i - 1)
      + if Lands(depth, rs[i - 1], side, acts[i - 1]) then [acts[i - 1].frame] else []
  }

  /** ... and those its endpoint received. */
  function Received(rs: seq<Router>, acts: seq<Action>, side: Side, i: nat): seq<Frame>
    requires i <= |acts| < |rs|
  {
    if i == 0 then [] else
      Received(rs, acts, side, i - 1)
      + if acts[i - 1] == Receive(side) && rs[i - 1].queues.Get(side) != [] then [rs[i - 1].queues.Get(side)[0]] else []
  }

  lemma QueueStep(depth: nat, r: Router, a: Action, side: Side)
    requires Enabled(r, a) && |r.queues.Get(side)| <= depth
    ensures var q, q' := r.queues.Get(side), Apply(depth, r, a).queues.Get(side);
            && |q'| <= depth && (a == Receive(side) ==> q != [])
            && q + (if Lands(depth, r, side, a) then [a.frame] else [])
               == (if a == Receive(side) then [q[0]] else []) + q'
  {
  }

  lemma Regroup(received: seq<Frame>, q: seq<Frame>, landed: seq<Frame>, taken: seq<Frame>, q': seq<Frame>)
    requires q + landed == taken + q'
    ensures (received + q) + landed == (received + taken) + q'
  {
    assert (received + q) + landed == received + (q + landed);
    assert (received + taken) + q' == received + (taken + q');
  }

  /** Whatever the operations do meanwhile, each endpoint receives exactly the
      frames that landed there, in order, and its queue holds the rest. */
  lemma {:induction false} QueueHistory(depth: nat, rs: seq<Router>, acts: seq<Action>, side: Side, i: nat)
    requires IsRun(depth, rs, acts) && i <= |acts|
    ensures Arrived(depth, rs, acts, side, i) == Received(rs, acts, side, i) + rs[i].queues.Get(side)
    ensures |rs[i].queues.Get(side)| <= depth
  {
    if i != 0 {
      hide Apply, Lands, Enabled;
      QueueHistory(depth, rs, acts, side, i - 1);
      var r, a := rs[i - 1], acts[i - 1];
      QueueStep(depth, r, a, side);
      var q, q' := r.queues.Get(side), rs[i].queues.Get(side);
      var landed := if Lands(depth, r, side, a) then [a.frame] else [];
      var taken := if a == Receive(side) then [q[0]] else [];
      Regroup(Received(rs, acts, side, i - 1), q, landed, taken, q');
    }
  }

  // ------------------------------------------------------------ what is asked for

  /** The kinds of frame each step of connecting or scanning asks for ... */
  lemma AskedKinds(f: Frame, address: nat)
    ensures Relevant(Authenticating(address), f) <==> f.kind == Authentication
    ensures Relevant(Associating(address), f) <==> f.kind == AssociationResponse
    ensures Relevant(CryptoHandshake(address), f) <==> f.kind == EapolKey
    ensures Relevant(Scanning, f) <==> f.kind in {Beacon, ProbeResponse}
  {
  }

  function StepNumber(op: Operation): nat {
    match op case Authenticating(_) => 0 case Associating(_) => 1 case CryptoHandshake(_) => 2 case Scanning => 3
  }

  /** ... so that no frame belongs to two different ones. */
  lemma AskedOnce(f: Frame, op: Operation, other: Operation)
    requires Relevant(op, f) && Relevant(other, f)
    ensures StepNumber(op) == StepNumber(other)
  {
  }

  /** A response of the kind the foreground step waits for joins its queue. */
  lemma ResponseReachesItsStep(depth: nat, r: Router, f: Frame, address: nat)
    requires |r.queues.fg| < depth
    requires || (r.ops.fg == Some(Authenticating(address)) && f.kind == Authentication)
             || (r.ops.fg == Some(Associating(address)) && f.kind == AssociationResponse)
             || (r.ops.fg == Some(CryptoHandshake(address)) && f.kind == EapolKey)
    ensures Apply(depth, r, Route(f)).queues == Two(r.queues.fg + [f], r.queues.bg)
  {
  }

  /** Side `side` runs `op` in `r'` and its other side is as before. */
  predicate Runs(r: Router, r': Router, side: Side, op: Operation) {
    && r'.ops.Get(side) == Some(op) && r'.tasks.Get(side).Holding? && !r'.signal
    && r'.ops.Get(Opposite(side)) == r.ops.Get(Opposite(side))
    && r'.tasks.Get(Opposite(side)) == r.tasks.Get(Opposite(side)) && r'.queues == r.queues
  }

  /** A side with nothing under way may always ask: it runs exactly when the other
      side is free, and otherwise fails or waits. One that waits may look again,
      and runs what it asked for exactly when the other side is free, or give up.
      One that runs may change its operation or end it, which sets the signal.
      Frames may always arrive. */
  lemma AlwaysOpen(depth: nat, r: Router, side: Side, op: Operation, f: Frame)
    requires Inv(r)
    ensures Enabled(r, Route(f))
    ensures var free := r.ops.Get(Opposite(side)).None?;
            match r.tasks.Get(side)
            case Idle =>
              && Enabled(r, TryStart(side, op)) && Enabled(r, Start(side, op))
              && (if free then Runs(r, Apply(depth, r, TryStart(side, op)), side, op)
                  else Apply(depth, r, TryStart(side, op)) == r)
              && (if free then Runs(r, Apply(depth, r, Start(side, op)), side, op)
                  else Apply(depth, r, Start(side, op)) == r.(tasks := r.tasks.Set(side, Waiting(op))))
            case Waiting(wanted) =>
              && Enabled(r, Resume(side)) && Enabled(r, CancelWait(side))
              && (if free then Runs(r, Apply(depth, r, Resume(side)), side, wanted)
                  else Apply(depth, r, Resume(side)) == r)
              && Apply(depth, r, CancelWait(side)) == r.(tasks := r.tasks.Set(side, Idle))
            case Holding =>
              && Enabled(r, Transition(side, op)) && Enabled(r, DropGuard(side))
              && Runs(r, Apply(depth, r, Transition(side, op)), side, op)
              && Apply(depth, r, DropGuard(side))
                 == r.(ops := r.ops.Set(side, None), signal := true, tasks := r.tasks.Set(side, Idle))
  {
    match side
    case Foreground =>
    case Background =>
  }

  /** The operation the task behind `side` asked for last. */
  function LastAsked(acts: seq<Action>, side: Side, i: nat): Option<Operation>
    requires i <= |acts|
  {
    if i == 0 then None
    else match acts[i - 1]
      case Start(k, op) => if k == side then Some(op) else LastAsked(acts, side, i - 1)
      case TryStart(k, op) => if k == side then Some(op) else LastAsked(acts, side, i - 1)
      case Transition(k, op) => if k == side then Some(op) else LastAsked(acts, side, i - 1)
      case _ => LastAsked(acts, side, i - 1)
  }

  /** What a side runs or waits to run. */
  ghost predicate AsAsked(r: Router, side: Side, asked: Option<Operation>) {
    && (r.tasks.Get(side).Waiting? ==> asked == Some(r.tasks.Get(side).wanted))
    && (r.tasks.Get(side).Holding? ==> asked == r.ops.Get(side))
  }

  lemma AskedByOneStep(depth: nat, r: Router, a: Action, side: Side, asked: Option<Operation>)
    requires Inv(r) && Enabled(r, a) && AsAsked(r, side, asked)
    ensures var now := if (a.Start? || a.TryStart? || a.Transition?) && a.side == side then Some(a.op) else asked;
            AsAsked(Apply(depth, r, a), side, now)
  {
  }

  /** In every run the active operation of a side, whether it started at once,
      after waiting or by a transition, is the one that was asked for last. */
  lemma {:induction false} RunsAsAsked(depth: nat, rs: seq<Router>, acts: seq<Action>, side: Side, i: nat)
    requires IsRun(depth, rs, acts) && i <= |acts|
    ensures AsAsked(rs[i], side, LastAsked(acts, side, i))
    ensures rs[i].ops.Get(side).Some? ==> LastAsked(acts, side, i) == rs[i].ops.Get(side)
  {
    RunInv(depth, rs, acts, i);
    if i != 0 {
      RunInv(depth, rs, acts, i - 1);
      RunsAsAsked(depth, rs, acts, side, i - 1);
      AskedByOneStep(depth, rs[i - 1], acts[i - 1], side, LastAsked(acts, side, i - 1));
      hide Apply, Enabled;
    }
  }

  // --------------------------------------------------------------- the router

  class RxRouterState {
    const depth: nat
    var fgOp: Option<Operation>
    var bgOp: Option<Operation>
    var signal: bool
    var fgQueue: seq<Frame>
    var bgQueue: seq<Frame>
    ghost var tasks: Two<Task>

    ghost function View(): Router
      reads this
    {
      Router(Two(fgOp, bgOp), signal, tasks, Two(fgQueue, bgQueue))
    }

    ghost predicate Valid()
      reads this
    {
      Inv(View())
    }

    constructor (depth: nat)
      ensures Valid() && View() == Fresh() && this.depth == depth
    {
      this.depth := depth;
      fgOp, bgOp, signal, fgQueue, bgQueue := None, None, false, [], [];
      tasks := Two(Idle, Idle);
    }

    method SetOperation(side: Side, op: Option<Operation>)
      modifies this`fgOp, this`bgOp
      ensures Two(fgOp, bgOp) == old(Two(fgOp, bgOp)).Set(side, op)
    {
      match side {
        case Foreground => fgOp := op;
        case Background => bgOp := op;
      }
    }

    method StartInternal(side: Side, op: Operation)
      modifies this
      ensures View() == Begin(old(View()), side, op)
    {
      signal := false;
      SetOperation(side, Some(op));
      tasks := tasks.Set(side, Holding);
    }

    method TryStartOperation(side: Side, op: Operation) returns (started: bool)
      requires Valid() && Enabled(View(), TryStart(side, op))
      modifies this
      ensures Valid() && View() == Apply(depth, old(View()), TryStart(side, op))
      ensures started <==> old(View()).ops.Get(Opposite(side)).None?
    {
      StepInv(depth, View(), TryStart(side, op));
      var opposing := if side.Foreground? then bgOp else fgOp;
      if opposing.Some? {
        return false;
      }
      StartInternal(side, op);
      started := true;
    }

    /** The first poll of `start_operation`. */
    method StartOperation(side: Side, op: Operation) returns (started: bool)
      requires Valid() && Enabled(View(), Start(side, op))
      modifies this
      ensures Valid() && View() == Apply(depth, old(View()), Start(side, op))
      ensures started <==> tasks.Get(side).Holding?
    {
      StepInv(depth, View(), Start(side, op));
      var opposing := if side.Foreground? then bgOp else fgOp;
      if opposing.Some? && !signal {
        tasks := tasks.Set(side, Waiting(op));
        return false;
      }
      StartInternal(side, op);
      started := true;
    }

    /** A later poll: take the signal and start without looking again. */
    method ResumeStart(side: Side, op: Operation) returns (started: bool)
      requires Valid() && tasks.Get(side) == Waiting(op)
      modifies this
      ensures Valid() && View() == Apply(depth, old(View()), Resume(side))
      ensures started ==> old(View()).ops.Get(Opposite(side)).None?
      ensures started <==> tasks.Get(side).Holding?
    {
      StepInv(depth, View(), Resume(side));
      started := signal;
      if signal {
        signal := false;
        StartInternal(side, op);
      }
    }

    /** The source expects this to succeed, and it does. */
    method TransitionTo(side: Side, op: Operation) returns (ok: bool)
      requires Valid() && Enabled(View(), Transition(side, op))
      modifies this
      ensures Valid() && ok && View() == Apply(depth, old(View()), Transition(side, op))
      ensures View().ops.Get(side) == Some(op)
    {
      StepInv(depth, View(), Transition(side, op));
      var previous := if side.Foreground? then fgOp else bgOp;
      var opposing := if side.Foreground? then bgOp else fgOp;
      SetOperation(side, None);
      if opposing.None? {
        StartInternal(side, op);
        ok := true;
      } else {
        assert false;
        ok := false;
      }
    }

    method Finish(side: Side)
      requires Valid() && Enabled(View(), DropGuard(side))
      modifies this
      ensures Valid() && View() == Apply(depth, old(View()), DropGuard(side))
    {
      StepInv(depth, View(), DropGuard(side));
      SetOperation(side, None);
      signal := true;
      tasks := tasks.Set(side, Idle);
    }

    method RouteFrame(f: Frame) returns (queued: bool)
      requires Valid()
      modifies this`fgQueue, this`bgQueue
      ensures Valid() && View() == Apply(depth, old(View()), Route(f))
      ensures queued <==> |old(View()).queues.Get(RouteTo(old(View()), f))| < depth
    {
      StepInv(depth, View(), Route(f));
      if fgOp.Some? && Relevant(fgOp.value, f) {
        queued := |fgQueue| < depth;
        if queued {
          fgQueue := fgQueue + [f];
        }
      } else {
        queued := |bgQueue| < depth;
        if queued {
          bgQueue := bgQueue + [f];
        }
      }
    }

    /** The future of a waiting start is dropped; the router does not notice. */
    ghost method CancelStart(side: Side)
      requires Valid() && Enabled(View(), CancelWait(side))
      modifies this`tasks
      ensures Valid() && View() == Apply(depth, old(View()), CancelWait(side))
      ensures tasks.Get(side).Idle? && tasks.Get(Opposite(side)) == old(tasks).Get(Opposite(side))
    {
      StepInv(depth, View(), CancelWait(side));
      tasks := tasks.Set(side, Idle);
    }

    /** One poll of an endpoint's `receive`. */
    method TryReceive(side: Side) returns (f: Option<Frame>)
      requires Valid()
      modifies this`fgQueue, this`bgQueue
      ensures Valid() && (f.Some? <==> Enabled(old(View()), Receive(side)))
      ensures match f
              case None => View() == old(View())
              case Some(first) =>
                && View() == Apply(depth, old(View()), Receive(side))
                && old(View()).queues.Get(side) == [first] + View().queues.Get(side)
    {
      var q := if side.Foreground? then fgQueue else bgQueue;
      if q == [] {
        return None;
      }
      StepInv(depth, View(), Receive(side));
      match side {
        case Foreground => fgQueue := fgQueue[1..];
        case Background => bgQueue := bgQueue[1..];
      }
      f := Some(q[0]);
    }

    /** The loop of `receive_connection_response` until the queue is empty: drop
        what was routed for an earlier step, return the first frame of this one. */
    method TakeResponse() returns (response: Option<Frame>, ghost dropped: nat)
      requires Valid() && fgOp.Some?
      modifies this`fgQueue, this`bgQueue
      ensures Valid() && bgQueue == old(bgQueue) && dropped <= |old(fgQueue)|
      ensures forall k :: 0 <= k < dropped ==> !Relevant(fgOp.value, old(fgQueue)[k])
      ensures match response
              case None => dropped == |old(fgQueue)| && fgQueue == []
              case Some(f) => Relevant(fgOp.value, f) && old(fgQueue)[dropped..] == [f] + fgQueue
    {
      dropped := 0;
      while true
        invariant Valid() && dropped <= |old(fgQueue)| && fgQueue == old(fgQueue)[dropped..]
        invariant bgQueue == old(bgQueue)
        invariant forall k :: 0 <= k < dropped ==> !Relevant(fgOp.value, old(fgQueue)[k])
        decreases |fgQueue|
      {
        var f := TryReceive(Foreground);
        if f.None? || Relevant(fgOp.value, f.value) {
          return f, dropped;
        }
        dropped := dropped + 1;
      }
    }

    /** Frames that arrive while the task sleeps on its empty queue. */
    method RouteBatch(batch: seq<Frame>)
      requires Valid() && fgOp.Some?
      modifies this`fgQueue, this`bgQueue
      ensures Valid() && fgQueue == Landed(depth, fgOp.value, old(fgQueue), batch)
    {
      for i := 0 to |batch|
        invariant Valid()
        invariant Landed(depth, fgOp.value, fgQueue, batch[i..]) == Landed(depth, fgOp.value, old(fgQueue), batch)
      {
        assert batch[i..][0] == batch[i] && batch[i..][1..] == batch[i + 1..];
        var _ := RouteFrame(batch[i]);
      }
    }

    /** `receive_connection_response`, woken by one batch of frames after the
        other: the first frame of the current step, queued or yet to come, and
        none as long as there is none. The borrowed guard keeps the operation. */
    method ReceiveConnectionResponse(later: seq<seq<Frame>>) returns (response: Option<Frame>)
      requires Valid() && fgOp.Some? && depth >= 1
      modifies this`fgQueue, this`bgQueue
      ensures Valid() && response == FirstRelevant(fgOp.value, old(fgQueue) + Concat(later))
    {
      var op := fgOp.value;
      var first, dropped := TakeResponse();
      TakenIsFirst(op, old(fgQueue), dropped, first, fgQueue);
      response := first;
      FirstOfConcat(op, old(fgQueue), Concat(later));
      for i := 0 to |later|
        invariant Valid() && fgOp == Some(op) && (response.None? ==> fgQueue == [])
        invariant response.None? ==>
                    FirstRelevant(op, old(fgQueue) + Concat(later)) == FirstRelevant(op, Concat(later[i..]))
        invariant response.Some? ==> response == FirstRelevant(op, old(fgQueue) + Concat(later))
      {
        assert later[i..][0] == later[i] && later[i..][1..] == later[i + 1..];
        if response.None? {
          FirstOfConcat(op, later[i], Concat(later[i + 1..]));
          RouteBatch(later[i]);
          LandedFirst(depth, op, later[i]);
          ghost var landed := fgQueue;
          response, dropped := TakeResponse();
          TakenIsFirst(op, landed, dropped, response, fgQueue);
        }
      }
    }
  }

  function FirstRelevant(op: Operation, s: seq<Frame>): Option<Frame> {
    if s == [] then None else if Relevant(op, s[0]) then Some(s[0]) else FirstRelevant(op, s[1..])
  }

  function Concat(batches: seq<seq<Frame>>): seq<Frame> {
    if batches == [] then [] else batches[0] + Concat(batches[1..])
  }

  /** The foreground queue after a batch: what the operation asks for, while there is room. */
  function Landed(depth: nat, op: Operation, q: seq<Frame>, batch: seq<Frame>): seq<Frame>
    decreases |batch|
  {
    if batch == [] then q
    else Landed(depth, op, if Relevant(op, batch[0]) && |q| < depth then q + [batch[0]] else q, batch[1..])
  }

  lemma {:induction false} FirstOfConcat(op: Operation, s: seq<Frame>, t: seq<Frame>)
    ensures FirstRelevant(op, s + t)
            == if FirstRelevant(op, s).Some? then FirstRelevant(op, s) else FirstRelevant(op, t)
  {
    if s == [] {
      assert s + t == t;
    } else {
      FirstOfConcat(op, s[1..], t);
      assert (s + t)[1..] == s[1..] + t;
    }
  }

  lemma {:induction false} TakenIsFirst(op: Operation, s: seq<Frame>, dropped: nat, f: Option<Frame>, rest: seq<Frame>)
    requires dropped <= |s| && forall k :: 0 <= k < dropped ==> !Relevant(op, s[k])
    requires match f
             case None => dropped == |s|
             case Some(x) => Relevant(op, x) && s[dropped..] == [x] + rest
    ensures FirstRelevant(op, s) == f
    decreases dropped
  {
    if dropped != 0 {
      assert s[1..][dropped - 1..] == s[dropped..];
      TakenIsFirst(op, s[1..], dropped - 1, f, rest);
    }
  }

  /** A queue that is not empty keeps its head. */
  lemma {:induction false} LandedKeepsHead(depth: nat, op: Operation, q: seq<Frame>, batch: seq<Frame>)
    requires q != []
    ensures Landed(depth, op, q, batch) != [] && Landed(depth, op, q, batch)[0] == q[0]
    decreases |batch|
  {
    if batch != [] {
      LandedKeepsHead(depth, op, if Relevant(op, batch[0]) && |q| < depth then q + [batch[0]] else q, batch[1..]);
    }
  }

  /** An empty queue gets the first frame asked for at its head. */
  lemma {:induction false} LandedFirst(depth: nat, op: Operation, batch: seq<Frame>)
    requires depth >= 1
    ensures FirstRelevant(op, Landed(depth, op, [], batch)) == FirstRelevant(op, batch)
    decreases |batch|
  {
    if batch != [] {
      if Relevant(op, batch[0]) {
        assert [] + [batch[0]] == [batch[0]];
        LandedKeepsHead(depth, op, [batch[0]], batch[1..]);
      } else {
        LandedFirst(depth, op, batch[1..]);
      }
    }
  }
}
