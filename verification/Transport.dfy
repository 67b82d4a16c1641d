// src-tauri/src/local_ssh/transport.rs: the actor that owns an SSH channel. Every
// choice of its surroundings is a parameter: a Setup says how the setup stages end,
// a Turn says what one pass of the select loop meets, including the commands that
// other threads submit at each point of it.
module Transport {
  import opened Wrappers
  import opened LocalSsh

  const MAX_TRANSPORT_CMD_QUEUE := 32
  const FAIR_IO_MAX_BURST := 8
  const U32_MAX := 0xFFFF_FFFF

  type U32 = n: int | 0 <= n <= U32_MAX

  type Bytes = seq<bv8>

  datatype CmdKind = Write(data: Bytes) | Resize(cols: U32, rows: U32)

  datatype Cmd = Cmd(id: nat, kind: CmdKind)

  // A message of the SSH channel. End is EOF, close, exit status, exit signal, or a
  // channel that yields no more messages.
  datatype Peer = Data(data: Bytes) | ExtendedData(ext: U32, data: Bytes) | End | OtherMsg

  // ok is Ok(()); otherwise the reply is TransportClosed.
  datatype Reply = Reply(cmd: Cmd, ok: bool)

  datatype Output = TerminalData(data: Bytes) | TerminalExtended(ext: U32, data: Bytes) | Closed

  // What the actor does to the outside, in order.
  datatype Io = Ready(r: Result<(), LocalSshError>) | ChannelClose | Disconnect | Emit(output: Output)

  // ---- FairIoScheduler ----

  datatype Scheduler = Scheduler(consecutivePeer: U32, consecutiveCmd: U32, maxBurst: U32)

  function SaturatingIncrement(n: U32): U32 {
    if n == U32_MAX then n else n + 1
  }

  function NewScheduler(maxBurst: U32): Scheduler {
    Scheduler(0, 0, if maxBurst == 0 then 1 else maxBurst)
  }

  predicate PreferCmdFirst(s: Scheduler) {
    s.consecutivePeer >= s.maxBurst
  }

  function OnPeer(s: Scheduler): Scheduler {
    s.(consecutivePeer := SaturatingIncrement(s.consecutivePeer), consecutiveCmd := 0)
  }

  function OnCmd(s: Scheduler): Scheduler {
    s.(consecutiveCmd := SaturatingIncrement(s.consecutiveCmd), consecutivePeer := 0)
  }

  datatype Arm = CancelArm | PeerArm | CmdArm | NoArm

  // The biased select: the first ready arm in the order of this turn.
  function Pick(s: Scheduler, cancelReady: bool, peerReady: bool, cmdReady: bool): Arm {
    if cancelReady then CancelArm
    else if PreferCmdFirst(s) then (if cmdReady then CmdArm else if peerReady then PeerArm else NoArm)
    else if peerReady then PeerArm
    else if cmdReady then CmdArm
    else NoArm
  }

  // ---- setup ----

  datatype SetupFailKind = Connect | PostConnectNoChannel | PostChannel

  datatype SetupCleanupState = SetupCleanupState(channelCloses: U32, disconnects: U32)

  datatype CleanupPlan = CleanupPlan(state: SetupCleanupState, closeChannel: bool, disconnect: bool)

  function PlanSetupFailure(state: SetupCleanupState, kind: SetupFailKind): CleanupPlan {
    var closes := if kind.PostChannel? then SaturatingIncrement(state.channelCloses) else state.channelCloses;
    var disconnect := !kind.Connect? && state.disconnects == 0;
    CleanupPlan(SetupCleanupState(closes, if disconnect then 1 else state.disconnects), kind.PostChannel?, disconnect)
  }

  function PlanAll(state: SetupCleanupState, kinds: seq<SetupFailKind>): seq<CleanupPlan>
    decreases kinds
  {
    if kinds == [] then []
    else
      var plan := PlanSetupFailure(state, kinds[0]);
      [plan] + PlanAll(plan.state, kinds[1..])
  }

  // However many failures are planned on one state, the handle is disconnected at
  // most once, a plan closes the channel exactly when one is open, and the first
  // failure with a handle does disconnect.
  lemma {:induction false} PlansDisconnectOnce(state: SetupCleanupState, kinds: seq<SetupFailKind>, i: nat, j: nat)
    requires i < j < |kinds|
    ensures var plans := PlanAll(state, kinds);
            && |plans| == |kinds|
            && !(plans[i].disconnect && plans[j].disconnect)
            && (plans[j].closeChannel <==> kinds[j].PostChannel?)
            && (plans[0].disconnect <==> !kinds[0].Connect? && state.disconnects == 0)
    decreases kinds
  {
    var plan := PlanSetupFailure(state, kinds[0]);
    PlansFollowKinds(plan.state, kinds[1..], j - 1);
    if i > 0 {
      PlansDisconnectOnce(plan.state, kinds[1..], i - 1, j - 1);
    }
  }

  lemma {:induction false} PlansFollowKinds(state: SetupCleanupState, kinds: seq<SetupFailKind>, i: nat)
    requires i < |kinds|
    ensures var plans := PlanAll(state, kinds);
            && |plans| == |kinds|
            && (plans[i].closeChannel <==> kinds[i].PostChannel?)
            && (state.disconnects != 0 ==> !plans[i].disconnect)
    decreases kinds
  {
    var plan := PlanSetupFailure(state, kinds[0]);
    if |kinds| > 1 {
      PlansFollowKinds(plan.state, kinds[1..], if i > 0 then i - 1 else 0);
    }
  }

  // How a setup stage ends: await_setup_stage over channel_open_session,
  // request_pty or request_shell.
  datatype Stage = Done | Failed | TimedOut | Cancelled

  // parentListens: the ready channel still has its receiver.
  datatype Setup = Setup(open: Stage, pty: Stage, shell: Stage, parentListens: bool)

  predicate Succeeds(setup: Setup) {
    setup.open.Done? && setup.pty.Done? && setup.shell.Done? && setup.parentListens
  }

  function StageError(stage: Stage): LocalSshError {
    if stage.Cancelled? then TransportClosed else ChannelFailed
  }

  // What a setup does to the outside.
  function SetupIo(setup: Setup): seq<Io> {
    if !setup.open.Done? then [Disconnect, Ready(Err(StageError(setup.open)))]
    else if !setup.pty.Done? then [ChannelClose, Disconnect, Ready(Err(StageError(setup.pty)))]
    else if !setup.shell.Done? then [ChannelClose, Disconnect, Ready(Err(StageError(setup.shell)))]
    else if !setup.parentListens then [ChannelClose, Disconnect]
    else [Ready(Ok(()))]
  }

  function SetupError(setup: Setup): LocalSshError {
    if !setup.open.Done? then StageError(setup.open)
    else if !setup.pty.Done? then StageError(setup.pty)
    else if !setup.shell.Done? then StageError(setup.shell)
    else TransportClosed
  }

  // ---- the select loop ----

  datatype Turn = Turn(
    early: seq<Cmd>,           // submitted before the flag is read at the top
    cancelledTop: bool,        // that flag
    polled: seq<Cmd>,          // submitted before the select decides
    cancelChanged: bool,       // arms ready when it does
    peer: Option<Peer>,
    sendersGone: bool,
    cancelledThen: bool,       // flag read again in the Cancel arm or after a dequeue
    during: seq<Cmd>,          // submitted while the backend works
    completed: bool,           // await_or_cancel gave Ok
    draining: seq<seq<Cmd>>,   // submitted before each try_recv of a drain
    late: seq<Cmd>)            // submitted after a drain, before the receiver is dropped

  datatype Loop = Loop(
    queue: seq<Cmd>,
    accepted: seq<Cmd>,        // all commands try_send took, in order
    replies: seq<Reply>,
    backend: seq<Cmd>,         // commands the SSH channel carried out
    peers: seq<Peer>,          // messages taken from the channel
    io: seq<Io>,
    sched: Scheduler,
    closedOnce: bool,
    exited: bool)              // loop left and receiver dropped

  // The first commands of a batch fit into the queue, the rest get CommandQueueFull.
  function Fitting(queue: seq<Cmd>, cmds: seq<Cmd>): seq<Cmd> {
    if |queue| + |cmds| <= MAX_TRANSPORT_CMD_QUEUE then cmds
    else if |queue| >= MAX_TRANSPORT_CMD_QUEUE then []
    else cmds[..MAX_TRANSPORT_CMD_QUEUE - |queue|]
  }

  function Accept(s: Loop, cmds: seq<Cmd>): Loop {
    var taken := Fitting(s.queue, cmds);
    s.(queue := s.queue + taken, accepted := s.accepted + taken)
  }

  function Refuse(s: Loop): Loop
    requires s.queue != []
  {
    s.(queue := s.queue[1..], replies := s.replies + [Reply(s.queue[0], false)])
  }

  function Drained(s: Loop, batches: seq<seq<Cmd>>): Loop
    decreases |batches|, |s.queue|
  {
    var s1 := if batches == [] then s else Accept(s, batches[0]);
    if s1.queue == [] then s1
    else Drained(Refuse(s1), if batches == [] then [] else batches[1..])
  }

  function ShutDown(s: Loop, late: seq<Cmd>): Loop {
    var s1 := Accept(s, late);
    s1.(io := s1.io + [ChannelClose, Disconnect] + (if s1.closedOnce then [] else [Emit(Closed)]),
        closedOnce := true, exited := true)
  }

  function FailClosed(s: Loop, t: Turn): Loop {
    ShutDown(Drained(s, t.draining), t.late)
  }

  function Render(p: Peer): seq<Io> {
    match p
    case Data(data) => [Emit(TerminalData(data))]
    case ExtendedData(ext, data) => [Emit(TerminalExtended(ext, data))]
    case _ => []
  }

  function AfterCmd(s: Loop, t: Turn): Loop
    requires s.queue != []
  {
    var cmd := s.queue[0];
    var s1 := s.(sched := OnCmd(s.sched));
    if t.cancelledThen then FailClosed(Refuse(s1), t)
    else
      var s2 := Accept(s1.(queue := s1.queue[1..]), t.during);
      var s3 := s2.(replies := s2.replies + [Reply(cmd, t.completed)],
                    backend := if t.completed then s2.backend + [cmd] else s2.backend);
      if t.completed then s3 else FailClosed(s3, t)
  }

  function AfterPeer(s: Loop, p: Peer, t: Turn): Loop {
    var s1 := s.(sched := OnPeer(s.sched), peers := s.peers + [p], io := s.io + Render(p));
    if p.End? then FailClosed(s1, t) else s1
  }

  function ArmOf(s: Loop, t: Turn): Arm {
    Pick(s.sched, t.cancelChanged, t.peer.Some?, s.queue != [] || t.sendersGone)
  }

  function AfterArm(s: Loop, t: Turn): Loop {
    match ArmOf(s, t)
    case CancelArm => if t.cancelledThen then FailClosed(s, t) else s
    case PeerArm => AfterPeer(s, t.peer.value, t)
    case CmdArm => if s.queue == [] then ShutDown(s, t.late) else AfterCmd(s, t)
    case NoArm => s
  }

  function AfterTurn(s: Loop, t: Turn): Loop {
    if s.exited then s
    else
      var s1 := Accept(s, t.early);
      if t.cancelledTop then FailClosed(s1, t) else AfterArm(Accept(s1, t.polled), t)
  }

  function AfterTurns(s: Loop, turns: seq<Turn>): Loop {
    if turns == [] then s else AfterTurn(AfterTurns(s, turns[..|turns| - 1]), turns[|turns| - 1])
  }

  const NEW_LOOP := Loop([], [], [], [], [], [Ready(Ok(()))], NewScheduler(FAIR_IO_MAX_BURST), false, false)

  // The loop after some turns of a session whose setup succeeded.
  function Session(turns: seq<Turn>): Loop {
    AfterTurns(NEW_LOOP, turns)
  }

  // ---- what holds between turns ----

  function Rendered(peers: seq<Peer>): seq<Io> {
    if peers == [] then [] else Rendered(peers[..|peers| - 1]) + Render(peers[|peers| - 1])
  }

  // accepted is what was answered, followed by what still waits.
  ghost predicate InOrder(s: Loop) {
    && |s.accepted| == |s.replies| + |s.queue|
    && (forall i :: 0 <= i < |s.replies| ==> s.replies[i].cmd == s.accepted[i])
    && s.queue == s.accepted[|s.replies|..]
    && |s.queue| <= MAX_TRANSPORT_CMD_QUEUE
  }

  // Ok to a first run of commands, which the backend carried out, and to no other.
  ghost predicate OkThenClosed(s: Loop) {
    && |s.backend| <= |s.replies|
    && (forall i :: 0 <= i < |s.replies| ==> (s.replies[i].ok <==> i < |s.backend|))
    && (forall i :: 0 <= i < |s.backend| ==> s.backend[i] == s.replies[i].cmd)
  }

  const EXIT_IO := [ChannelClose, Disconnect, Emit(Closed)]

  ghost predicate Inv(s: Loop) {
    && InOrder(s) && OkThenClosed(s)
    && (!s.exited ==> |s.backend| == |s.replies| && !s.closedOnce && End !in s.peers)
    && s.io == [Ready(Ok(()))] + Rendered(s.peers) + (if s.exited then EXIT_IO else [])
    && (forall i :: 0 <= i < |s.peers| - 1 ==> !s.peers[i].End?)
  }

  // Replies only, while the loop is being left.
  ghost predicate Leaving(s: Loop) {
    InOrder(s) && OkThenClosed(s)
  }

  lemma AcceptKeeps(s: Loop, cmds: seq<Cmd>)
    requires Leaving(s)
    ensures Leaving(Accept(s, cmds))
  {
  }

  lemma RefuseKeeps(s: Loop)
    requires Leaving(s) && s.queue != []
    ensures Leaving(Refuse(s))
  {
  }

  lemma {:induction false} DrainKeeps(s: Loop, batches: seq<seq<Cmd>>)
    requires Leaving(s)
    ensures var d := Drained(s, batches);
            Leaving(d) && d == s.(queue := [], accepted := d.accepted, replies := d.replies)
    decreases |batches|, |s.queue|
  {
    hide Leaving;
    var s1 := if batches == [] then s else Accept(s, batches[0]);
    if batches != [] {
      AcceptKeeps(s, batches[0]);
    }
    if s1.queue != [] {
      RefuseKeeps(s1);
      DrainKeeps(Refuse(s1), if batches == [] then [] else batches[1..]);
    }
  }

  lemma FailClosedKeeps(s: Loop, t: Turn)
    requires Leaving(s) && !s.closedOnce
    ensures var f := FailClosed(s, t);
            && Leaving(f) && f.exited && f.io == s.io + EXIT_IO && f.peers == s.peers && f.backend == s.backend
  {
    hide Leaving, Drained;
    DrainKeeps(s, t.draining);
    AcceptKeeps(Drained(s, t.draining), t.late);
    ShutDownIo(Drained(s, t.draining), t.late);
  }

  lemma ShutDownIo(s: Loop, late: seq<Cmd>)
    requires !s.closedOnce
    ensures ShutDown(s, late) == Accept(s, late).(io := s.io + EXIT_IO, closedOnce := true, exited := true)
    ensures Leaving(Accept(s, late)) ==> Leaving(ShutDown(s, late))
  {
    assert [ChannelClose, Disconnect] + [Emit(Closed)] == EXIT_IO;
    assert s.io + [ChannelClose, Disconnect] + [Emit(Closed)] == s.io + EXIT_IO;
  }

  lemma AcceptKeepsInv(s: Loop, cmds: seq<Cmd>)
    requires Inv(s)
    ensures Inv(Accept(s, cmds))
  {
    AcceptKeeps(s, cmds);
  }

  lemma ExitKeepsInv(s: Loop, f: Loop)
    requires Leaving(f) && f.exited && f.peers == s.peers && f.io == s.io + EXIT_IO
    requires s.io == [Ready(Ok(()))] + Rendered(s.peers)
    requires forall i :: 0 <= i < |s.peers| - 1 ==> !s.peers[i].End?
    ensures Inv(f)
  {
  }

  lemma PeerKeepsInv(s: Loop, p: Peer, t: Turn)
    requires Inv(s) && !s.exited
    ensures Inv(AfterPeer(s, p, t))
  {
    hide Drained, ShutDown, FailClosed;
    var s1 := s.(sched := OnPeer(s.sched), peers := s.peers + [p], io := s.io + Render(p));
    assert s1.peers[..|s1.peers| - 1] == s.peers;
    assert s1.io == [Ready(Ok(()))] + Rendered(s1.peers);
    assert Leaving(s1);
    if p.End? {
      FailClosedKeeps(s1, t);
      ExitKeepsInv(s1, FailClosed(s1, t));
    }
  }

  lemma CmdKeepsInv(s: Loop, t: Turn)
    requires Inv(s) && !s.exited && s.queue != []
    ensures Inv(AfterCmd(s, t))
  {
    hide Drained, ShutDown, FailClosed, Accept, Rendered;
    var cmd := s.queue[0];
    var s1 := s.(sched := OnCmd(s.sched));
    if t.cancelledThen {
      RefuseKeeps(s1);
      FailClosedKeeps(Refuse(s1), t);
      ExitKeepsInv(s, FailClosed(Refuse(s1), t));
    } else {
      var s2 := Accept(s1.(queue := s1.queue[1..]), t.during);
      var s3 := s2.(replies := s2.replies + [Reply(cmd, t.completed)],
                    backend := if t.completed then s2.backend + [cmd] else s2.backend);
      AnsweredKeeps(s1, t.during, t.completed);
      if !t.completed {
        FailClosedKeeps(s3, t);
        ExitKeepsInv(s, FailClosed(s3, t));
      }
    }
  }

  lemma AnsweredKeeps(s: Loop, during: seq<Cmd>, completed: bool)
    requires Leaving(s) && s.queue != [] && |s.backend| == |s.replies|
    ensures var s2 := Accept(s.(queue := s.queue[1..]), during);
            var s3 := s2.(replies := s2.replies + [Reply(s.queue[0], completed)],
                          backend := if completed then s2.backend + [s.queue[0]] else s2.backend);
            && Leaving(s3) && (completed ==> |s3.backend| == |s3.replies|)
            && s2 == s.(queue := s2.queue, accepted := s2.accepted)
  {
  }

  lemma ArmKeepsInv(s: Loop, t: Turn)
    requires Inv(s) && !s.exited
    ensures Inv(AfterArm(s, t))
  {
    hide AfterPeer, AfterCmd, FailClosed, Rendered, Pick;
    match ArmOf(s, t)
    case CancelArm =>
      if t.cancelledThen {
        FailClosedKeeps(s, t);
        ExitKeepsInv(s, FailClosed(s, t));
      }
    case PeerArm =>
      PickedIsReady(s, t);
      PeerKeepsInv(s, t.peer.value, t);
    case CmdArm =>
      if s.queue == [] {
        AcceptKeeps(s, t.late);
        ShutDownIo(s, t.late);
        ExitKeepsInv(s, ShutDown(s, t.late));
      } else {
        CmdKeepsInv(s, t);
      }
    case NoArm =>
  }

  lemma PickedIsReady(s: Loop, t: Turn)
    ensures ArmOf(s, t).PeerArm? ==> t.peer.Some?
  {
  }

  lemma TurnKeepsInv(s: Loop, t: Turn)
    requires Inv(s)
    ensures Inv(AfterTurn(s, t))
  {
    hide Inv, Accept, AfterArm, FailClosed;
    if !s.exited {
      var s1 := Accept(s, t.early);
      AcceptKeepsInv(s, t.early);
      AcceptKeepsExited(s, t.early);
      if t.cancelledTop {
        CancelKeepsInv(s1, t);
      } else {
        AcceptKeepsInv(s1, t.polled);
        AcceptKeepsExited(s1, t.polled);
        ArmKeepsInv(Accept(s1, t.polled), t);
      }
    }
  }

  lemma AcceptKeepsExited(s: Loop, cmds: seq<Cmd>)
    ensures Accept(s, cmds).exited == s.exited
  {
  }

  lemma CancelKeepsInv(s: Loop, t: Turn)
    requires Inv(s) && !s.exited
    ensures Inv(FailClosed(s, t))
  {
    hide FailClosed, Rendered;
    FailClosedKeeps(s, t);
    ExitKeepsInv(s, FailClosed(s, t));
  }

  lemma {:induction false} SessionKeepsInv(turns: seq<Turn>)
    ensures Inv(Session(turns))
  {
    hide Inv, AfterTurn;
    if turns == [] {
      NewLoopInv();
    } else {
      SessionKeepsInv(turns[..|turns| - 1]);
      TurnKeepsInv(Session(turns[..|turns| - 1]), turns[|turns| - 1]);
    }
  }

  lemma NewLoopInv()
    ensures Inv(NEW_LOOP)
  {
  }

  // ---- main results ----

  // In every session commands are answered in the order they were accepted, each once,
  // first Ok to those the SSH channel carried out and then TransportClosed only; what
  // is left when the receiver is dropped was never carried out.
  lemma CommandsAnsweredInOrder(turns: seq<Turn>)
    ensures var s := Session(turns);
            && |s.replies| <= |s.accepted|
            && (forall i :: 0 <= i < |s.replies| ==> s.replies[i].cmd == s.accepted[i])
            && |s.backend| <= |s.replies| && s.backend == s.accepted[..|s.backend|]
            && (forall i :: 0 <= i < |s.replies| ==> (s.replies[i].ok <==> i < |s.backend|))
            && (!s.exited ==> |s.backend| == |s.replies|)
            && s.accepted[|s.replies|..] == s.queue && |s.queue| <= MAX_TRANSPORT_CMD_QUEUE
  {
    hide Session, Rendered;
    SessionKeepsInv(turns);
  }

  // The whole outside behaviour of a session: data in the order of the peer's messages
  // while it runs, and at its end one channel close, one disconnect and one Closed,
  // which is last. No data comes from a message after the one that ended it.
  lemma ClosedOnceAndLast(turns: seq<Turn>)
    ensures var s := Session(turns);
            && s.io == [Ready(Ok(()))] + Rendered(s.peers) + (if s.exited then EXIT_IO else [])
            && Emit(Closed) !in Rendered(s.peers)
            && multiset(s.io)[Emit(Closed)] == (if s.exited then 1 else 0)
            && multiset(s.io)[ChannelClose] == (if s.exited then 1 else 0)
            && multiset(s.io)[Disconnect] == (if s.exited then 1 else 0)
            && (s.exited ==> s.io[|s.io| - 1] == Emit(Closed))
            && (End in s.peers ==> s.exited && s.peers[|s.peers| - 1].End? && End !in s.peers[..|s.peers| - 1])
  {
    hide Session, Rendered, InOrder, OkThenClosed;
    SessionKeepsInv(turns);
    var s := Session(turns);
    RenderedIsData(s.peers);
    CountsOf(Rendered(s.peers), if s.exited then EXIT_IO else []);
  }

  lemma CountsOf(data: seq<Io>, end: seq<Io>)
    requires (forall e :: e in data ==> e.Emit? && e.output != Closed) && (end == EXIT_IO || end == [])
    ensures var io := multiset([Ready(Ok(()))] + data + end);
            && io[Emit(Closed)] == (if end == EXIT_IO then 1 else 0)
            && io[ChannelClose] == (if end == EXIT_IO then 1 else 0)
            && io[Disconnect] == (if end == EXIT_IO then 1 else 0)
  {
    assert multiset([Ready(Ok(()))] + data + end) == multiset([Ready(Ok(()))]) + multiset(data) + multiset(end);
    assert Emit(Closed) !in data && ChannelClose !in data && Disconnect !in data;
  }

  lemma {:induction false} RenderedIsData(peers: seq<Peer>)
    ensures forall e :: e in Rendered(peers) ==> e.Emit? && e.output != Closed
  {
    if peers != [] {
      RenderedIsData(peers[..|peers| - 1]);
    }
  }

  // ---- what the terminal shows ----

  // The peer messages that carry terminal data.
  function DataMessages(peers: seq<Peer>): seq<Peer> {
    if peers == [] then []
    else
      var last := peers[|peers| - 1];
      DataMessages(peers[..|peers| - 1]) + if last.Data? || last.ExtendedData? then [last] else []
  }

  // Everything emitted but Closed.
  function Shown(io: seq<Io>): seq<Output> {
    if io == [] then []
    else
      var last := io[|io| - 1];
      Shown(io[..|io| - 1]) + if last.Emit? && last.output != Closed then [last.output] else []
  }

  // One output for each data message, in order, with the very bytes of the message.
  ghost predicate ShowsAll(io: seq<Io>, peers: seq<Peer>) {
    var shown, said := Shown(io), DataMessages(peers);
    && |shown| == |said|
    && forall i :: 0 <= i < |said| ==>
         && (said[i].Data? ==> shown[i] == TerminalData(said[i].data))
         && (said[i].ExtendedData? ==> shown[i] == TerminalExtended(said[i].ext, said[i].data))
  }

  lemma {:induction false} ShownAppend(a: seq<Io>, b: seq<Io>)
    ensures Shown(a + b) == Shown(a) + Shown(b)
  {
    if b == [] {
      assert a + b == a;
    } else {
      ShownAppend(a, b[..|b| - 1]);
      assert (a + b)[..|a + b| - 1] == a + b[..|b| - 1];
    }
  }

  lemma ShownOfRender(p: Peer)
    ensures Shown(Render(p)) == match p
                                case Data(data) => [TerminalData(data)]
                                case ExtendedData(ext, data) => [TerminalExtended(ext, data)]
                                case _ => []
  {
  }

  lemma {:induction false} RenderedShowsAll(peers: seq<Peer>)
    ensures ShowsAll(Rendered(peers), peers)
  {
    if peers != [] {
      var init, last := peers[..|peers| - 1], peers[|peers| - 1];
      RenderedShowsAll(init);
      ShownAppend(Rendered(init), Render(last));
      ShownOfRender(last);
      hide Render, Shown;
    }
  }

  lemma FrameShowsNothing(exited: bool)
    ensures Shown([Ready(Ok(()))]) == [] && Shown(if exited then EXIT_IO else []) == []
  {
    assert EXIT_IO[..2] == [ChannelClose, Disconnect];
    assert [ChannelClose, Disconnect][..1] == [ChannelClose];
  }

  // In every session the terminal gets, in order and unchanged, the data of every message
  // taken from the channel, standard output as such and extended data with its code, and
  // nothing else.
  lemma PeerDataIsShown(turns: seq<Turn>)
    ensures ShowsAll(Session(turns).io, Session(turns).peers)
  {
    hide Session, Rendered, InOrder, OkThenClosed, Shown, DataMessages, EXIT_IO;
    SessionKeepsInv(turns);
    var s := Session(turns);
    RenderedShowsAll(s.peers);
    FrameShowsNothing(s.exited);
    ShownAppend([Ready(Ok(()))] + Rendered(s.peers), if s.exited then EXIT_IO else []);
    ShownAppend([Ready(Ok(()))], Rendered(s.peers));
  }

  // ---- what one turn decides ----

  // A turn that is not cancelled.
  predicate Selects(t: Turn) {
    !t.cancelledTop && !t.cancelChanged
  }

  // It takes a message that is there, unless after a full burst of messages a command waits
  // or the senders are gone.
  predicate TakesMessage(sched: Scheduler, waiting: seq<Cmd>, t: Turn) {
    && Selects(t) && t.peer.Some?
    && (sched.consecutivePeer < sched.maxBurst || (waiting == [] && !t.sendersGone))
  }

  predicate TakesCommand(sched: Scheduler, waiting: seq<Cmd>, t: Turn) {
    Selects(t) && waiting != [] && (t.peer.None? || sched.consecutivePeer >= sched.maxBurst)
  }

  // The loop is left on a cancel, at the end of the channel, after a command that fails or
  // is cancelled, and when no sender is left.
  predicate Leaves(sched: Scheduler, waiting: seq<Cmd>, t: Turn) {
    || t.cancelledTop
    || (t.cancelChanged && t.cancelledThen)
    || (TakesMessage(sched, waiting, t) && t.peer.value.End?)
    || (TakesCommand(sched, waiting, t) && (t.cancelledThen || !t.completed))
    || (Selects(t) && waiting == [] && t.sendersGone && (t.peer.None? || sched.consecutivePeer >= sched.maxBurst))
  }

  // What fits of a batch: its front, up to the free places of the queue.
  lemma FittingIsFront(queue: seq<Cmd>, cmds: seq<Cmd>)
    requires |queue| <= MAX_TRANSPORT_CMD_QUEUE
    ensures Fitting(queue, cmds) == cmds[..Min(|cmds|, MAX_TRANSPORT_CMD_QUEUE - |queue|)]
  {
    assert cmds[..|cmds|] == cmds;
  }

  lemma {:induction false} DrainedCarriesNothing(s: Loop, batches: seq<seq<Cmd>>)
    ensures var d := Drained(s, batches);
            && d.queue == [] && d.backend == s.backend && d.closedOnce == s.closedOnce && s.replies <= d.replies
    decreases |batches|, |s.queue|
  {
    var s1 := if batches == [] then s else Accept(s, batches[0]);
    if s1.queue != [] {
      DrainedCarriesNothing(Refuse(s1), if batches == [] then [] else batches[1..]);
    }
  }

  lemma FailClosedCarriesNothing(s: Loop, t: Turn)
    ensures var f := FailClosed(s, t);
            && f.exited && f.peers == s.peers && f.backend == s.backend && s.replies <= f.replies
            && f.queue == t.late[..Min(|t.late|, MAX_TRANSPORT_CMD_QUEUE)]
  {
    hide Drained;
    DrainedCarriesNothing(s, t.draining);
    DrainTakesNoPeers(s, t.draining);
    FittingIsFront([], t.late);
    assert [] + Fitting([], t.late) == Fitting([], t.late);
  }

  // What a turn takes, carries out, answers and leaves waiting, and when it leaves the loop;
  // then only what came after the drain is unanswered.
  predicate TurnOutcome(s: Loop, waiting: seq<Cmd>, t: Turn, s': Loop) {
    var command := TakesCommand(s.sched, waiting, t);
    && (s'.exited <==> Leaves(s.sched, waiting, t))
    && s'.peers == s.peers + (if TakesMessage(s.sched, waiting, t) then [t.peer.value] else [])
    && (command ==>
          var ok := !t.cancelledThen && t.completed;
          s'.backend == s.backend + (if ok then [waiting[0]] else []) && s.replies + [Reply(waiting[0], ok)] <= s'.replies)
    && (!command ==> s'.backend == s.backend)
    && (!command && !s'.exited ==> s'.replies == s.replies && s'.queue == waiting)
    && (s'.exited ==> s'.queue == t.late[..Min(|t.late|, MAX_TRANSPORT_CMD_QUEUE)])
  }

  lemma CommandDecides(s: Loop, t: Turn)
    requires s.queue != [] && !s.exited
    ensures var s', cmd, ok := AfterCmd(s, t), s.queue[0], !t.cancelledThen && t.completed;
            && (s'.exited <==> !ok) && s'.peers == s.peers && s'.backend == s.backend + (if ok then [cmd] else [])
            && s.replies + [Reply(cmd, ok)] <= s'.replies
            && (!ok ==> s'.queue == t.late[..Min(|t.late|, MAX_TRANSPORT_CMD_QUEUE)])
  {
    hide FailClosed;
    var s1 := s.(sched := OnCmd(s.sched));
    if t.cancelledThen {
      FailClosedCarriesNothing(Refuse(s1), t);
    } else if !t.completed {
      var s2 := Accept(s1.(queue := s1.queue[1..]), t.during);
      FailClosedCarriesNothing(s2.(replies := s2.replies + [Reply(s.queue[0], false)]), t);
    }
  }

  lemma MessageDecides(s: Loop, p: Peer, t: Turn)
    requires !s.exited
    ensures var s' := AfterPeer(s, p, t);
            && (s'.exited <==> p.End?) && s'.peers == s.peers + [p] && s'.backend == s.backend
            && (!p.End? ==> s'.replies == s.replies && s'.queue == s.queue)
            && (p.End? ==> s'.queue == t.late[..Min(|t.late|, MAX_TRANSPORT_CMD_QUEUE)])
  {
    hide FailClosed;
    if p.End? {
      FailClosedCarriesNothing(s.(sched := OnPeer(s.sched), peers := s.peers + [p], io := s.io + Render(p)), t);
    }
  }

  lemma ArmDecides(s: Loop, t: Turn)
    requires !s.exited && !t.cancelledTop
    ensures TurnOutcome(s, s.queue, t, AfterArm(s, t))
  {
    hide FailClosed, AfterPeer, AfterCmd;
    FailClosedCarriesNothing(s, t);
    if s.queue != [] {
      CommandDecides(s, t);
    } else {
      FittingIsFront([], t.late);
      assert [] + Fitting([], t.late) == Fitting([], t.late);
    }
    if t.peer.Some? {
      MessageDecides(s, t.peer.value, t);
    }
  }

  lemma OutcomeIgnoresQueue(s: Loop, queue: seq<Cmd>, accepted: seq<Cmd>, waiting: seq<Cmd>, t: Turn, s': Loop)
    ensures TurnOutcome(s.(queue := queue, accepted := accepted), waiting, t, s') <==> TurnOutcome(s, waiting, t, s')
  {
    hide TakesCommand, TakesMessage, Leaves;
  }

  // What waits when the select decides: the queue and the fitting front of each batch.
  function Waiting(s: Loop, t: Turn): (waiting: seq<Cmd>)
    requires |s.queue| <= MAX_TRANSPORT_CMD_QUEUE
    ensures |waiting| <= MAX_TRANSPORT_CMD_QUEUE
  {
    var early := s.queue + t.early[..Min(|t.early|, MAX_TRANSPORT_CMD_QUEUE - |s.queue|)];
    early + t.polled[..Min(|t.polled|, MAX_TRANSPORT_CMD_QUEUE - |early|)]
  }

  // Every turn of every session does just this.
  lemma TurnDecides(turns: seq<Turn>, t: Turn)
    requires !Session(turns).exited
    ensures |Session(turns).queue| <= MAX_TRANSPORT_CMD_QUEUE
    ensures TurnOutcome(Session(turns), Waiting(Session(turns), t), t, AfterTurn(Session(turns), t))
  {
    var s := Session(turns);
    SessionKeepsInv(turns);
    assert |s.queue| <= MAX_TRANSPORT_CMD_QUEUE;
    hide Session, Inv, FailClosed, AfterArm, TurnOutcome, Fitting;
    FittingIsFront(s.queue, t.early);
    var s1 := Accept(s, t.early);
    FittingIsFront(s1.queue, t.polled);
    var s2 := Accept(s1, t.polled);
    if t.cancelledTop {
      CancelDecides(s, s1, Waiting(s, t), t);
    } else {
      ArmDecides(s2, t);
      OutcomeIgnoresQueue(s, s2.queue, s2.accepted, s2.queue, t, AfterArm(s2, t));
    }
  }

  lemma CancelDecides(s: Loop, s1: Loop, waiting: seq<Cmd>, t: Turn)
    requires t.cancelledTop && s1 == s.(queue := s1.queue, accepted := s1.accepted)
    ensures TurnOutcome(s, waiting, t, FailClosed(s1, t))
  {
    hide FailClosed;
    FailClosedCarriesNothing(s1, t);
  }

  // ---- bounded bypass ----

  function Min(a: nat, b: nat): nat {
    if a < b then a else b
  }

  // How far a scheduler is towards preferring commands.
  function Debt(s: Scheduler): nat {
    Min(s.consecutivePeer, s.maxBurst)
  }

  lemma {:induction false} DrainTakesNoPeers(s: Loop, batches: seq<seq<Cmd>>)
    ensures var d := Drained(s, batches);
            d.peers == s.peers && d.sched == s.sched && |d.replies| >= |s.replies| && d.exited == s.exited
    decreases |batches|, |s.queue|
  {
    var s1 := if batches == [] then s else Accept(s, batches[0]);
    if s1.queue != [] {
      DrainTakesNoPeers(Refuse(s1), if batches == [] then [] else batches[1..]);
    }
  }

  lemma FailClosedTakesNoPeers(s: Loop, t: Turn)
    ensures FailClosed(s, t).exited
  {
    hide Drained;
    DrainTakesNoPeers(s, t.draining);
  }

  // One turn with a command waiting: a peer message adds to the debt, and an answered
  // command pays it off, which is worth 8 peer messages at most.
  lemma TurnPaysForPeers(s: Loop, t: Turn)
    requires s.queue != [] && !s.exited && !AfterTurn(s, t).exited && s.sched.maxBurst == FAIR_IO_MAX_BURST
    ensures var s' := AfterTurn(s, t);
            && s'.sched.maxBurst == s.sched.maxBurst
            && |s.replies| <= |s'.replies| && |s.peers| <= |s'.peers|
            && |s'.peers| - |s.peers| + Debt(s.sched)
               <= FAIR_IO_MAX_BURST * (|s'.replies| - |s.replies|) + Debt(s'.sched)
  {
    hide FailClosed;
    var s1 := Accept(s, t.early);
    var s2 := Accept(s1, t.polled);
    if t.cancelledTop {
      FailClosedTakesNoPeers(s1, t);
    } else if ArmOf(s2, t).CancelArm? && t.cancelledThen {
      FailClosedTakesNoPeers(s2, t);
    } else if ArmOf(s2, t).PeerArm? && t.peer.value.End? {
      FailClosedTakesNoPeers(s2.(sched := OnPeer(s2.sched), peers := s2.peers + [t.peer.value],
                                 io := s2.io + Render(t.peer.value)), t);
    } else if ArmOf(s2, t).CmdArm? {
      AnswerPaysForPeers(s2, t);
    }
  }

  lemma AnswerPaysForPeers(s: Loop, t: Turn)
    requires s.queue != [] && !AfterCmd(s, t).exited
    ensures var s' := AfterCmd(s, t);
            |s'.replies| == |s.replies| + 1 && s'.peers == s.peers && s'.sched == OnCmd(s.sched)
  {
    hide FailClosed;
    if t.cancelledThen {
      FailClosedTakesNoPeers(Refuse(s.(sched := OnCmd(s.sched))), t);
    } else if !t.completed {
      var s2 := Accept(s.(sched := OnCmd(s.sched), queue := s.queue[1..]), t.during);
      FailClosedTakesNoPeers(s2.(replies := s2.replies + [Reply(s.queue[0], false)]), t);
    }
  }

  lemma ExitedStays(s: Loop, t: Turn)
    ensures s.exited ==> AfterTurn(s, t) == s
  {
  }

  predicate PaidFor(s: Loop, s': Loop) {
    && s.sched.maxBurst == s'.sched.maxBurst == FAIR_IO_MAX_BURST
    && |s.accepted| <= |s'.accepted| && |s.replies| <= |s'.replies| && |s.peers| <= |s'.peers|
    && |s'.peers| - |s.peers| + Debt(s.sched) <= FAIR_IO_MAX_BURST * (|s'.replies| - |s.replies|) + Debt(s'.sched)
  }

  lemma PaidForTransitive(s0: Loop, s1: Loop, s2: Loop)
    requires PaidFor(s0, s1) && PaidFor(s1, s2)
    ensures PaidFor(s0, s2)
  {
  }

  lemma WaitingTurnPays(s: Loop, t: Turn, c: nat)
    requires Inv(s) && c < |s.accepted| && |AfterTurn(s, t).replies| <= c && !AfterTurn(s, t).exited
    requires s.sched.maxBurst == FAIR_IO_MAX_BURST
    ensures !s.exited && PaidFor(s, AfterTurn(s, t))
  {
    ExitedStays(s, t);
    TurnGrows(s, t);
    hide AfterTurn, Rendered;
    TurnPaysForPeers(s, t);
  }

  lemma SessionStep(turns: seq<Turn>, j: nat)
    requires 0 < j <= |turns|
    ensures Session(turns[..j]) == AfterTurn(Session(turns[..j - 1]), turns[j - 1])
  {
    hide AfterTurn;
    assert turns[..j][..j - 1] == turns[..j - 1];
  }

  lemma {:induction false} WaitingCommandPaysForPeers(turns: seq<Turn>, i: nat, j: nat, c: nat)
    requires i <= j <= |turns|
    requires c < |Session(turns[..i]).accepted| && |Session(turns[..j]).replies| <= c
    requires !Session(turns[..j]).exited
    ensures !Session(turns[..i]).exited && PaidFor(Session(turns[..i]), Session(turns[..j]))
  {
    hide Session, AfterTurn, Inv;
    if i == j {
      BurstIsFixed(turns[..i]);
    } else {
      var before, last := Session(turns[..j - 1]), turns[j - 1];
      SessionStep(turns, j);
      ExitedStays(before, last);
      TurnGrows(before, last);
      WaitingCommandPaysForPeers(turns, i, j - 1, c);
      SessionKeepsInv(turns[..j - 1]);
      WaitingTurnPays(before, last, c);
      hide PaidFor;
      PaidForTransitive(Session(turns[..i]), before, Session(turns[..j]));
    }
  }

  lemma TurnGrows(s: Loop, t: Turn)
    ensures |s.replies| <= |AfterTurn(s, t).replies| && |s.accepted| <= |AfterTurn(s, t).accepted|
    ensures AfterTurn(s, t).sched.maxBurst == s.sched.maxBurst
  {
    hide FailClosed;
    var s1 := Accept(s, t.early);
    var s2 := Accept(s1, t.polled);
    FailClosedGrows(s1, t);
    FailClosedGrows(s2, t);
    if t.peer.Some? {
      FailClosedGrows(s2.(sched := OnPeer(s2.sched), peers := s2.peers + [t.peer.value],
                          io := s2.io + Render(t.peer.value)), t);
    }
    if s2.queue != [] {
      AfterCmdGrows(s2, t);
    }
  }

  lemma AfterCmdGrows(s: Loop, t: Turn)
    requires s.queue != []
    ensures |s.replies| <= |AfterCmd(s, t).replies| && |s.accepted| <= |AfterCmd(s, t).accepted|
    ensures AfterCmd(s, t).sched.maxBurst == s.sched.maxBurst
  {
    hide FailClosed;
    FailClosedGrows(Refuse(s.(sched := OnCmd(s.sched))), t);
    var s2 := Accept(s.(sched := OnCmd(s.sched), queue := s.queue[1..]), t.during);
    FailClosedGrows(s2.(replies := s2.replies + [Reply(s.queue[0], false)]), t);
  }

  lemma FailClosedGrows(s: Loop, t: Turn)
    ensures var f := FailClosed(s, t);
            |s.replies| <= |f.replies| && |s.accepted| <= |f.accepted| && f.sched == s.sched
  {
    hide Drained;
    DrainTakesNoPeers(s, t.draining);
    DrainAccepts(s, t.draining);
  }

  lemma {:induction false} DrainAccepts(s: Loop, batches: seq<seq<Cmd>>)
    ensures |s.accepted| <= |Drained(s, batches).accepted|
    decreases |batches|, |s.queue|
  {
    var s1 := if batches == [] then s else Accept(s, batches[0]);
    if s1.queue != [] {
      DrainAccepts(Refuse(s1), if batches == [] then [] else batches[1..]);
    }
  }

  lemma {:induction false} BurstIsFixed(turns: seq<Turn>)
    ensures Session(turns).sched.maxBurst == FAIR_IO_MAX_BURST
  {
    hide AfterTurn;
    if turns != [] {
      BurstIsFixed(turns[..|turns| - 1]);
      TurnGrows(Session(turns[..|turns| - 1]), turns[|turns| - 1]);
    }
  }

  // While a command waits with k commands ahead of it, the loop takes at most
  // 8 * (k + 1) peer messages, however many are ready.
  lemma CommandBypassIsBounded(turns: seq<Turn>, i: nat, j: nat, c: nat)
    requires i <= j <= |turns|
    requires |Session(turns[..i]).replies| <= c < |Session(turns[..i]).accepted|
    requires |Session(turns[..j]).replies| <= c && !Session(turns[..j]).exited
    ensures var ahead := c - |Session(turns[..i]).replies|;
            |Session(turns[..j]).peers| - |Session(turns[..i]).peers| <= FAIR_IO_MAX_BURST * (ahead + 1)
  {
    hide Session;
    WaitingCommandPaysForPeers(turns, i, j, c);
  }

  // Any scheduler, any schedule of ready arms: n-th state and n-th choice.
  ghost function SchedulerAt(maxBurst: U32, ready: nat -> (bool, bool), n: nat): Scheduler {
    if n == 0 then NewScheduler(maxBurst)
    else
      var s := SchedulerAt(maxBurst, ready, n - 1);
      match ChoiceAt(s, ready(n - 1))
      case PeerArm => OnPeer(s)
      case CmdArm => OnCmd(s)
      case _ => s
  }

  ghost function ChoiceAt(s: Scheduler, ready: (bool, bool)): Arm {
    Pick(s, false, ready.0, ready.1)
  }

  lemma {:induction false} BurstAt(maxBurst: U32, ready: nat -> (bool, bool), n: nat)
    ensures SchedulerAt(maxBurst, ready, n).maxBurst == NewScheduler(maxBurst).maxBurst > 0
  {
    if n > 0 {
      BurstAt(maxBurst, ready, n - 1);
    }
  }

  lemma PeerAdds(s: Scheduler, ready: (bool, bool))
    requires ready.1 && !ChoiceAt(s, ready).CmdArm?
    ensures !PreferCmdFirst(s) && ChoiceAt(s, ready).PeerArm?
    ensures s.maxBurst <= U32_MAX && OnPeer(s).consecutivePeer == s.consecutivePeer + 1
  {
  }

  // The n-th choice passes over a ready command.
  ghost predicate Passed(maxBurst: U32, ready: nat -> (bool, bool), n: nat) {
    ready(n).1 && !ChoiceAt(SchedulerAt(maxBurst, ready, n), ready(n)).CmdArm?
  }

  lemma PassedAdds(maxBurst: U32, ready: nat -> (bool, bool), n: nat)
    requires Passed(maxBurst, ready, n)
    ensures SchedulerAt(maxBurst, ready, n + 1).consecutivePeer == SchedulerAt(maxBurst, ready, n).consecutivePeer + 1
  {
    hide ChoiceAt, NewScheduler;
    PeerAdds(SchedulerAt(maxBurst, ready, n), ready(n));
    assert SchedulerAt(maxBurst, ready, n + 1) == OnPeer(SchedulerAt(maxBurst, ready, n));
  }

  lemma {:induction false} PeersAccumulate(maxBurst: U32, ready: nat -> (bool, bool), n: nat, k: nat)
    requires forall i :: n <= i < n + k ==> Passed(maxBurst, ready, i)
    ensures SchedulerAt(maxBurst, ready, n + k).consecutivePeer >= k
  {
    hide Passed, SchedulerAt;
    if k > 0 {
      PeersAccumulate(maxBurst, ready, n, k - 1);
      PassedAdds(maxBurst, ready, n + k - 1);
    }
  }

  // Under any schedule a command that stays ready is chosen after at most max_burst
  // peer events (1 when max_burst is 0), and a peer that stays ready after at most one
  // command; neither arm starves the other.
  lemma BypassIsBounded(maxBurst: U32, ready: nat -> (bool, bool), n: nat)
    ensures var burst := if maxBurst == 0 then 1 else maxBurst;
            (forall i :: n <= i <= n + burst ==> ready(i).1) ==>
              exists i :: n <= i <= n + burst && ChoiceAt(SchedulerAt(maxBurst, ready, i), ready(i)).CmdArm?
    ensures ready(n).0 && ready(n + 1).0 ==>
              || ChoiceAt(SchedulerAt(maxBurst, ready, n), ready(n)).PeerArm?
              || ChoiceAt(SchedulerAt(maxBurst, ready, n + 1), ready(n + 1)).PeerArm?
  {
    var burst := if maxBurst == 0 then 1 else maxBurst;
    BurstAt(maxBurst, ready, n);
    BurstAt(maxBurst, ready, n + burst);
    if forall i :: n <= i <= n + burst ==> ready(i).1 {
      if forall i :: n <= i < n + burst ==> Passed(maxBurst, ready, i) {
        PeersAccumulate(maxBurst, ready, n, burst);
        assert ready(n + burst).1;
        assert ChoiceAt(SchedulerAt(maxBurst, ready, n + burst), ready(n + burst)).CmdArm?;
      } else {
        var i :| n <= i < n + burst && !Passed(maxBurst, ready, i);
        assert ready(i).1;
      }
    }
  }

  // Everything run_transport_loop does to the outside.
  function WholeIo(setup: Setup, turns: seq<Turn>): seq<Io> {
    if Succeeds(setup) then Session(turns).io else SetupIo(setup)
  }

  // One disconnect and one channel close at most, in that case before the disconnect,
  // and nothing after Closed.
  ghost predicate CleansUpOnce(io: seq<Io>) {
    && multiset(io)[Disconnect] <= 1 && multiset(io)[ChannelClose] <= multiset(io)[Disconnect]
    && (forall i, j :: 0 <= i < |io| && 0 <= j < |io| && io[i] == ChannelClose && io[j] == Disconnect ==> i < j)
    && (forall i :: 0 <= i < |io| - 1 ==> io[i] != Emit(Closed))
  }

  // A failed setup always disconnects, closes the channel exactly when it was opened,
  // emits nothing, never reports success, and reports its error last, after the
  // cleanup, unless all that failed was the report itself.
  lemma FailedSetupCleansUp(setup: Setup)
    requires !Succeeds(setup)
    ensures var io := SetupIo(setup);
            && CleansUpOnce(io) && Disconnect in io && (ChannelClose in io <==> setup.open.Done?)
            && (forall e :: e in io ==> !e.Emit?) && Ready(Ok(())) !in io
            && (Ready(Err(SetupError(setup))) in io <==> !(setup.open.Done? && setup.pty.Done? && setup.shell.Done?))
            && (forall i :: 0 <= i < |io| - 1 ==> !io[i].Ready?)
  {
    SetupIoIsClean(setup);
    hide CleansUpOnce;
  }

  lemma SetupIoIsClean(setup: Setup)
    ensures CleansUpOnce(SetupIo(setup))
  {
    hide CleansUpOnce, StageError;
    var e := Ready(Err(SetupError(setup)));
    CleanShapes(e);
    CleanShapes(Ready(Ok(())));
  }

  lemma CleanShapes(e: Io)
    requires e.Ready?
    ensures CleansUpOnce([Disconnect, e]) && CleansUpOnce([ChannelClose, Disconnect, e])
    ensures CleansUpOnce([ChannelClose, Disconnect]) && CleansUpOnce([e])
  {
    assert multiset([Disconnect, e]) == multiset{Disconnect, e};
    assert multiset([ChannelClose, Disconnect, e]) == multiset{ChannelClose, Disconnect, e};
    assert multiset([ChannelClose, Disconnect]) == multiset{ChannelClose, Disconnect};
    assert multiset([e]) == multiset{e};
  }

  // Over every setup and every session.
  lemma CleanupHappensOnce(setup: Setup, turns: seq<Turn>)
    ensures CleansUpOnce(WholeIo(setup, turns))
    ensures ChannelClose in WholeIo(setup, turns) ==> setup.open.Done?
  {
    if Succeeds(setup) {
      hide Session;
      var s := Session(turns);
      RenderedIsData(s.peers);
      ClosedOnceAndLast(turns);
      ExitOrder([Ready(Ok(()))] + Rendered(s.peers), s.exited);
    } else {
      FailedSetupCleansUp(setup);
    }
  }

  lemma ExitOrder(head: seq<Io>, exited: bool)
    requires forall e :: e in head ==> e == Ready(Ok(())) || (e.Emit? && e.output != Closed)
    ensures var io := head + (if exited then EXIT_IO else []);
            && (forall i, j :: 0 <= i < |io| && 0 <= j < |io| && io[i] == ChannelClose && io[j] == Disconnect ==> i < j)
            && (forall i :: 0 <= i < |io| - 1 ==> io[i] != Emit(Closed))
  {
    var io := head + (if exited then EXIT_IO else []);
    forall i | 0 <= i < |head| ensures io[i] != ChannelClose && io[i] != Disconnect && io[i] != Emit(Closed) {
      assert io[i] == head[i] && head[i] in head;
    }
  }

  // ---- the caller ----

  // One pass of the poll loop of send_cmd.
  datatype Seen = Empty | Answered(ok: bool) | ReplyDropped

  datatype Poll = Poll(cancelledBefore: bool, seen: Seen, cancelledAfter: bool)

  // None while it still polls.
  function AckOutcome(polls: seq<Poll>): Option<Result<(), LocalSshError>> {
    if polls == [] then None
    else if polls[0].cancelledBefore then Some(Err(TransportClosed))
    else
      match polls[0].seen
      case Answered(ok) => Some(if ok then Ok(()) else Err(TransportClosed))
      case ReplyDropped => Some(Err(TransportClosed))
      case Empty => if polls[0].cancelledAfter then Some(Err(TransportClosed)) else AckOutcome(polls[1..])
  }

  // A poll after which the caller polls again.
  predicate Waits(poll: Poll) {
    !poll.cancelledBefore && poll.seen.Empty? && !poll.cancelledAfter
  }

  predicate WaitsUpTo(polls: seq<Poll>, i: nat) {
    i <= |polls| && forall j :: 0 <= j < i ==> Waits(polls[j])
  }

  // The poll loop of send_cmd, over the polls it makes until it returns: Ok exactly when
  // the first poll that ends the wait is an Ok answer without a cancel before it.
  method AwaitAck(polls: seq<Poll>) returns (r: Option<Result<(), LocalSshError>>)
    ensures r == AckOutcome(polls)
    ensures r.None? <==> WaitsUpTo(polls, |polls|)
    ensures r == Some(Ok(())) <==>
              exists i :: 0 <= i < |polls| && WaitsUpTo(polls, i) && !polls[i].cancelledBefore && polls[i].seen == Answered(true)
    ensures r in {None, Some(Ok(())), Some(Err(TransportClosed))}
  {
    var i := 0;
    while i < |polls|
      invariant 0 <= i <= |polls| && WaitsUpTo(polls, i)
      invariant AckOutcome(polls) == AckOutcome(polls[i..])
    {
      var poll := polls[i];
      if poll.cancelledBefore {
        return Some(Err(TransportClosed));
      }
      match poll.seen {
        case Answered(ok) =>
          assert ok ==> WaitsUpTo(polls, i) && polls[i].seen == Answered(true);
          return Some(if ok then Ok(()) else Err(TransportClosed));
        case ReplyDropped => return Some(Err(TransportClosed));
        case Empty =>
          if poll.cancelledAfter {
            return Some(Err(TransportClosed));
          }
      }
      i := i + 1;
    }
    return None;
  }

  // What the caller of the c-th accepted command can see when the loop has come to s.
  predicate MaySee(s: Loop, c: nat, seen: Seen) {
    match seen
    case Empty => !s.exited && c >= |s.replies|
    case Answered(ok) => c < |s.replies| && ok == s.replies[c].ok
    case ReplyDropped => s.exited && c >= |s.replies|
  }

  // A caller's polls against a session, poll i after at[i] turns.
  ghost predicate Polls(turns: seq<Turn>, c: nat, at: seq<nat>, polls: seq<Poll>) {
    && |at| == |polls|
    && (forall i :: 0 <= i < |at| ==> at[i] <= |turns| && MaySee(Session(turns[..at[i]]), c, polls[i].seen))
  }

  // The c-th accepted command is the c-th that the SSH channel carried out.
  predicate CarriedOut(s: Loop, c: nat) {
    c < |s.backend| && c < |s.accepted| && s.backend[c] == s.accepted[c]
  }

  // A caller is told Ok only of a command the SSH channel has carried out by then, and
  // a caller that polls after the receiver is gone does not wait any longer: commands
  // left in the queue resolve to TransportClosed.
  lemma {:induction false} CallerLearnsOutcome(turns: seq<Turn>, c: nat, at: seq<nat>, polls: seq<Poll>)
    requires Polls(turns, c, at, polls) && c < |Session(turns).accepted|
    ensures AckOutcome(polls) == Some(Ok(())) ==>
              exists i :: 0 <= i < |at| && CarriedOut(Session(turns[..at[i]]), c)
    ensures (exists i :: 0 <= i < |at| && Session(turns[..at[i]]).exited) ==> AckOutcome(polls).Some?
    ensures AckOutcome(polls).Some? ==> AckOutcome(polls).value in {Ok(()), Err(TransportClosed)}
  {
    hide Session;
    if polls != [] {
      SessionKeepsInv(turns[..at[0]]);
      if !polls[0].cancelledBefore && polls[0].seen.Empty? && !polls[0].cancelledAfter {
        CallerLearnsOutcome(turns, c, at[1..], polls[1..]);
        assert forall i :: 0 < i < |at| ==> at[i] == at[1..][i - 1];
      }
    }
  }

  // ---- the actor ----

  class FairIoScheduler {
    var consecutivePeer: U32
    var consecutiveCmd: U32
    const maxBurst: U32

    function View(): Scheduler
      reads this
    {
      Scheduler(consecutivePeer, consecutiveCmd, maxBurst)
    }

    constructor (maxBurst: U32)
      ensures View() == NewScheduler(maxBurst)
    {
      this.consecutivePeer, this.consecutiveCmd := 0, 0;
      this.maxBurst := if maxBurst == 0 then 1 else maxBurst;
    }

    method OnPeerEvent()
      modifies this
      ensures View() == OnPeer(old(View()))
      ensures consecutivePeer == Min(old(consecutivePeer) + 1, U32_MAX) && consecutiveCmd == 0
    {
      consecutivePeer := SaturatingIncrement(consecutivePeer);
      consecutiveCmd := 0;
    }

    method OnCommand()
      modifies this
      ensures View() == OnCmd(old(View()))
      ensures consecutiveCmd == Min(old(consecutiveCmd) + 1, U32_MAX) && consecutivePeer == 0
    {
      consecutiveCmd := SaturatingIncrement(consecutiveCmd);
      consecutivePeer := 0;
    }
  }

  class TransportActor {
    var queue: seq<Cmd>
    var accepted: seq<Cmd>
    var replies: seq<Reply>
    var backend: seq<Cmd>
    var peers: seq<Peer>
    var io: seq<Io>
    const sched: FairIoScheduler
    var closedOnce: bool
    var exited: bool
    var cleanup: SetupCleanupState

    function View(): Loop
      reads this, sched
    {
      Loop(queue, accepted, replies, backend, peers, io, sched.View(), closedOnce, exited)
    }

    constructor ()
      ensures fresh(sched)
      ensures View() == NEW_LOOP.(io := []) && cleanup == SetupCleanupState(0, 0)
    {
      queue, accepted, replies, backend, peers, io := [], [], [], [], [], [];
      closedOnce, exited, cleanup := false, false, SetupCleanupState(0, 0);
      sched := new FairIoScheduler(FAIR_IO_MAX_BURST);
    }

    // try_send of the bounded command channel.
    method TrySend(cmd: Cmd) returns (r: Result<(), LocalSshError>)
      modifies this`queue, this`accepted
      ensures old(exited) ==> r == Err(TransportClosed) && unchanged(this)
      ensures !old(exited) && |old(queue)| >= MAX_TRANSPORT_CMD_QUEUE ==> r == Err(CommandQueueFull) && unchanged(this)
      ensures !old(exited) && |old(queue)| < MAX_TRANSPORT_CMD_QUEUE ==>
                r == Ok(()) && queue == old(queue) + [cmd] && accepted == old(accepted) + [cmd]
    {
      if exited {
        return Err(TransportClosed);
      }
      if |queue| >= MAX_TRANSPORT_CMD_QUEUE {
        return Err(CommandQueueFull);
      }
      queue := queue + [cmd];
      accepted := accepted + [cmd];
      return Ok(());
    }

    // What other threads submit between two steps of the actor.
    method Submissions(cmds: seq<Cmd>)
      requires !exited
      modifies this`queue, this`accepted
      ensures View() == Accept(old(View()), cmds)
      ensures |old(queue)| <= MAX_TRANSPORT_CMD_QUEUE ==>
                var taken := cmds[..Min(|cmds|, MAX_TRANSPORT_CMD_QUEUE - |old(queue)|)];
                queue == old(queue) + taken && accepted == old(accepted) + taken
    {
      if |queue| <= MAX_TRANSPORT_CMD_QUEUE {
        FittingIsFront(queue, cmds);
      }
      var i := 0;
      while i < |cmds|
        invariant 0 <= i <= |cmds|
        invariant View() == Accept(old(View()), cmds[..i])
      {
        assert cmds[..i + 1] == cmds[..i] + [cmds[i]];
        var r := TrySend(cmds[i]);
        i := i + 1;
      }
      assert cmds[..|cmds|] == cmds;
    }

    // while let Ok(c) = cmd_rx.try_recv()
    method Drain(batches: seq<seq<Cmd>>)
      requires !exited
      modifies this`queue, this`accepted, this`replies
      ensures View() == Drained(old(View()), batches)
      ensures queue == [] && old(replies) <= replies
    {
      DrainedCarriesNothing(View(), batches);
      var rest := batches;
      if rest != [] {
        Submissions(rest[0]);
        rest := rest[1..];
      }
      while queue != []
        invariant !exited
        invariant Drained(old(View()), batches)
               == if queue == [] then View() else Drained(Refuse(View()), rest)
        decreases |rest|, |queue|
      {
        var cmd := queue[0];
        queue := queue[1..];
        replies := replies + [Reply(cmd, false)];
        if rest != [] {
          Submissions(rest[0]);
          rest := rest[1..];
        }
      }
    }

    method EmitClosedOnce()
      modifies this`io, this`closedOnce
      ensures closedOnce && io == old(io) + (if old(closedOnce) then [] else [Emit(Closed)])
    {
      if !closedOnce {
        closedOnce := true;
        io := io + [Emit(Closed)];
      }
    }

    method RunCleanupIo(closeChannel: bool, disconnect: bool)
      modifies this`io
      ensures io == old(io) + (if closeChannel then [ChannelClose] else []) + (if disconnect then [Disconnect] else [])
    {
      if closeChannel {
        io := io + [ChannelClose];
      }
      if disconnect {
        io := io + [Disconnect];
      }
    }

    // Cleanup and Closed, then the receiver is dropped.
    method Leave(late: seq<Cmd>)
      requires !exited
      modifies this`queue, this`accepted, this`io, this`closedOnce, this`exited
      ensures View() == ShutDown(old(View()), late)
    {
      Submissions(late);
      RunCleanupIo(true, true);
      EmitClosedOnce();
      exited := true;
    }

    // One pass of the select loop.
    method OneTurn(t: Turn)
      requires !exited
      modifies this`queue, this`accepted, this`replies, this`backend, this`peers, this`io, this`closedOnce, this`exited, sched
      ensures View() == AfterTurn(old(View()), t)
    {
      hide Drained, ShutDown, Accept;
      Submissions(t.early);
      if t.cancelledTop {
        Drain(t.draining);
        Leave(t.late);
        return;
      }
      Submissions(t.polled);
      match Pick(sched.View(), t.cancelChanged, t.peer.Some?, queue != [] || t.sendersGone)
      case CancelArm =>
        if t.cancelledThen {
          Drain(t.draining);
          Leave(t.late);
        }
      case PeerArm =>
        TakePeer(t.peer.value, t);
      case CmdArm =>
        if queue == [] {
          Leave(t.late);
        } else {
          TakeCmd(t);
        }
      case NoArm =>
    }

    method TakePeer(p: Peer, t: Turn)
      requires !exited
      modifies this`queue, this`accepted, this`replies, this`peers, this`io, this`closedOnce, this`exited, sched
      ensures View() == AfterPeer(old(View()), p, t)
    {
      hide Drained, ShutDown;
      sched.OnPeerEvent();
      peers := peers + [p];
      match p {
        case Data(data) => io := io + [Emit(TerminalData(data))];
        case ExtendedData(ext, data) => io := io + [Emit(TerminalExtended(ext, data))];
        case End =>
          assert io + Render(p) == io;
          Drain(t.draining);
          Leave(t.late);
        case OtherMsg =>
          assert io + Render(p) == io;
      }
    }

    method TakeCmd(t: Turn)
      requires !exited && queue != []
      modifies this`queue, this`accepted, this`replies, this`backend, this`io, this`closedOnce, this`exited, sched
      ensures View() == AfterCmd(old(View()), t)
    {
      hide Drained, ShutDown, Accept;
      var cmd := queue[0];
      queue := queue[1..];
      sched.OnCommand();
      if t.cancelledThen {
        replies := replies + [Reply(cmd, false)];
        Drain(t.draining);
        Leave(t.late);
        return;
      }
      Submissions(t.during);
      if t.completed {
        backend := backend + [cmd];
      }
      replies := replies + [Reply(cmd, t.completed)];
      if !t.completed {
        Drain(t.draining);
        Leave(t.late);
      }
    }

    method PlanFailure(kind: SetupFailKind) returns (closeChannel: bool, disconnect: bool)
      modifies this`cleanup
      ensures var plan := PlanSetupFailure(old(cleanup), kind);
              cleanup == plan.state && closeChannel == plan.closeChannel && disconnect == plan.disconnect
      ensures closeChannel <==> kind.PostChannel?
      ensures disconnect <==> !kind.Connect? && old(cleanup).disconnects == 0
      ensures cleanup.channelCloses == Min(old(cleanup).channelCloses + (if closeChannel then 1 else 0), U32_MAX)
      ensures cleanup.disconnects == if disconnect then 1 else old(cleanup).disconnects
    {
      closeChannel := kind.PostChannel?;
      if closeChannel {
        cleanup := cleanup.(channelCloses := SaturatingIncrement(cleanup.channelCloses));
      }
      disconnect := !kind.Connect? && cleanup.disconnects == 0;
      if disconnect {
        cleanup := cleanup.(disconnects := 1);
      }
    }

    method FailSetup(kind: SetupFailKind, ready: Option<LocalSshError>)
      requires cleanup == SetupCleanupState(0, 0)
      modifies this`cleanup, this`io
      ensures io == old(io) + (if kind.PostChannel? then [ChannelClose] else [])
                  + (if kind.Connect? then [] else [Disconnect])
                  + (if ready.Some? then [Ready(Err(ready.value))] else [])
    {
      var closeChannel, disconnect := PlanFailure(kind);
      RunCleanupIo(closeChannel, disconnect);
      if ready.Some? {
        io := io + [Ready(Err(ready.value))];
      }
    }

    // run_transport_loop, for as many turns as are given.
    method RunTransportLoop(setup: Setup, turns: seq<Turn>) returns (r: Result<(), LocalSshError>)
      requires View() == NEW_LOOP.(io := []) && cleanup == SetupCleanupState(0, 0)
      modifies this, sched
      ensures io == WholeIo(setup, turns) && (Succeeds(setup) ==> ShowsAll(io, peers))
      ensures Succeeds(setup) ==> r == Ok(()) && View() == Session(turns)
      ensures !Succeeds(setup) ==> r == Err(SetupError(setup)) && View() == NEW_LOOP.(io := io)
      ensures r.Ok? <==> setup.open.Done? && setup.pty.Done? && setup.shell.Done? && setup.parentListens
      ensures setup.open.Cancelled? || (setup.open.Done? && setup.pty.Cancelled?) ==> r == Err(TransportClosed)
      ensures setup.open.Done? && setup.pty.Done? && setup.shell.Cancelled? ==> r == Err(TransportClosed)
      ensures setup.open in {Failed, TimedOut} ==> r == Err(ChannelFailed)
      ensures setup.open.Done? && setup.pty in {Failed, TimedOut} ==> r == Err(ChannelFailed)
      ensures setup.open.Done? && setup.pty.Done? && setup.shell in {Failed, TimedOut} ==> r == Err(ChannelFailed)
    {
      if !setup.open.Done? {
        FailSetup(PostConnectNoChannel, Some(StageError(setup.open)));
        return Err(StageError(setup.open));
      }
      if !setup.pty.Done? {
        FailSetup(PostChannel, Some(StageError(setup.pty)));
        return Err(StageError(setup.pty));
      }
      if !setup.shell.Done? {
        FailSetup(PostChannel, Some(StageError(setup.shell)));
        return Err(StageError(setup.shell));
      }
      if !setup.parentListens {
        FailSetup(PostChannel, None);
        return Err(TransportClosed);
      }
      io := io + [Ready(Ok(()))];
      hide AfterTurn, AfterTurns, ShowsAll;
      LoopTurns(turns);
      PeerDataIsShown(turns);
      return Ok(());
    }

    method LoopTurns(turns: seq<Turn>)
      requires View() == NEW_LOOP
      modifies this`queue, this`accepted, this`replies, this`backend, this`peers, this`io, this`closedOnce, this`exited, sched
      ensures View() == Session(turns)
    {
      var i := 0;
      while i < |turns| && !exited
        invariant 0 <= i <= |turns|
        invariant View() == Session(turns[..i])
      {
        hide AfterTurn;
        assert turns[..i + 1][..i] == turns[..i];
        OneTurn(turns[i]);
        i := i + 1;
      }
      if exited {
        ExitedForGood(turns, i);
      } else {
        assert turns[..i] == turns;
      }
    }
  }

  lemma {:induction false} ExitedForGood(turns: seq<Turn>, n: nat)
    requires n <= |turns| && Session(turns[..n]).exited
    ensures Session(turns) == Session(turns[..n])
  {
    if n == |turns| {
      assert turns[..n] == turns;
    } else {
      var init := turns[..|turns| - 1];
      assert init[..n] == turns[..n];
      ExitedForGood(init, n);
      ExitedStays(Session(init), turns[|turns| - 1]);
    }
  }
}
