/**
 * The graph listener's run loop and its callers, one shared access to a step.
 *
 * Two mutexes order them: a caller takes the barrier, interrupts the loop's wait, takes the nodes
 * mutex and gives the barrier back, so that the loop cannot take the nodes mutex again in between.
 * The interrupt is a guard condition that stays latched until a wait returns. shutdown raises the
 * flag, interrupts, and joins the loop; what comes after it changes the list with no nodes mutex.
 */
module GraphListenerSpec {

  import opened Wrappers
  import opened GraphListenerScan

  type Caller = nat

  // None is the null pointer.
  datatype Op =
    | HasNode(node: Option<Node>)
    | AddNode(node: Option<Node>)
    | RemoveNode(node: Option<Node>)
    | Start
    | Shutdown

  datatype Outcome =
    | Answer(found: bool)
    | Finished
    | InvalidArgument
    | ShutdownError
    | NodeAlreadyAdded
    | NodeNotFound
    | InterruptFailed   // the interrupt guard condition is finalised

  datatype Phase =
    | Idle
    | WantShutdown(op: Op)    // locks shutdown_mutex_
    | Decide(op: Op)          // looks at is_shutdown_
    | WantBarrier(op: Op)     // acquire_nodes_lock_: locks the barrier mutex
    | Interrupting(op: Op)    // triggers the interrupt
    | WantNodes(op: Op)       // locks the nodes mutex
    | HandOver(op: Op)        // releases the barrier mutex
    | InNodes(op: Op)         // changes the list and releases its locks, or begins to scan it
    | Scanning(op: Op)        // has_node, one place a step
    | Unlocked(op: Op)        // remove_node after shutdown: no nodes mutex
    | Triggering              // __shutdown, flag set: triggers the interrupt
    | Joining
    | Finalising

  datatype LoopPc =
    | Unstarted
    | AtCheck                 // looks at is_shutdown_
    | AtBarrier
    | AtNodes
    | AtHandOver              // releases the barrier mutex, reads the list's size
    | Building(i: nat)        // puts node i into the wait set
    | Waiting                 // rcl_wait
    | Notifying(i: nat)       // tells node i
    | Returned

  datatype Who = Loop | Call(caller: Caller)

  // has_node going over the list: the node asked for, the next place, the end that the list had.
  // `mark` and `lost` are history variables: how much of the log there was when the scan began, and
  // whether an erasure has overtaken it and the node was not erased itself since.
  datatype Scan = NoScan | Scan(node: Node, i: nat, end: nat, mark: nat, lost: bool)

  // One operation and what it came to.
  datatype Entry = Entry(op: Op, outcome: Outcome)

  datatype State = State(
    nodes: seq<Node>,
    stale: seq<Node>,                  // what erased nodes left behind the list
    scan: Scan,                        // of the caller that is Scanning
    latched: bool,                     // the interrupt guard condition
    flag: bool,                        // is_shutdown_
    started: bool,
    finalised: bool,
    loop: LoopPc,
    size: nat,                         // node_graph_interfaces_size
    seen: seq<Node>,                   // nodes put into the wait set this round
    told: seq<Node>,                   // nodes told after the wait this round
    callers: map<Caller, Phase>,
    shutdownMutex: Option<Who>,
    barrier: Option<Who>,
    nodesMutex: Option<Who>,
    log: seq<Entry>)

  function Initial(): State {
    State([], [], NoScan, false, false, false, false, Unstarted, 0, [], [], map[], None, None, None, [])
  }

  function At(s: State, c: Caller): Phase {
    if c in s.callers then s.callers[c] else Idle
  }

  // ---- the list operations ----

  // What an operation that gets as far as the list answers, and what it leaves there.
  function Found(nodes: seq<Node>, op: Op): Outcome {
    match op
    case HasNode(n) => Answer(n.Some? && n.value in nodes)
    case AddNode(n) => if n.None? then InvalidArgument else if n.value in nodes then NodeAlreadyAdded else Finished
    case RemoveNode(n) => if n.None? then InvalidArgument else if n.value in nodes then Finished else NodeNotFound
    case _ => Finished
  }

  function Effect(nodes: seq<Node>, op: Op): seq<Node> {
    if op.AddNode? && op.node.Some? && op.node.value !in nodes then nodes + [op.node.value]
    else if op.RemoveNode? && op.node.Some? then Without(nodes, op.node.value)
    else nodes
  }

  function StaleAfter(nodes: seq<Node>, stale: seq<Node>, op: Op): seq<Node> {
    if op.AddNode? && op.node.Some? && op.node.value !in nodes then Overwritten(stale)
    else if op.RemoveNode? && op.node.Some? then LeftBehind(nodes, stale, op.node.value)
    else stale
  }

  // What an erasure means for a scan going on.
  function ScanAfter(scan: Scan, nodes: seq<Node>, m: Node): Scan {
    if scan.NoScan? then scan
    else scan.(lost := m != scan.node && (scan.lost || Overtakes(nodes, scan.i, scan.node, m)))
  }

  // ---- steps ----

  predicate CanMove(s: State, w: Who) {
    match w
    case Loop =>
      (match s.loop
       case Unstarted => false
       case AtBarrier => s.barrier == None
       case AtNodes => s.nodesMutex == None
       case Building(i) => i < s.size ==> i < |s.nodes|
       case Notifying(i) => i < s.size ==> i < |s.nodes|
       case Waiting => s.latched
       case Returned => false
       case _ => true)
    case Call(c) =>
      match At(s, c)
      case Idle => false
      case WantShutdown(_) => s.shutdownMutex == None
      case WantBarrier(_) => s.barrier == None
      case WantNodes(_) => s.nodesMutex == None
      case Joining => s.loop == Returned
      case Scanning(_) => ScanFits(s)
      case _ => true
  }

  predicate ScanFits(s: State) {
    s.scan.Scan? && s.scan.i <= s.scan.end <= |s.nodes| + |s.stale| && s.scan.mark <= |s.log|
  }

  function LoopMove(s: State): State
    requires CanMove(s, Loop)
  {
    match s.loop
    case AtCheck => s.(loop := if s.flag then Returned else AtBarrier)
    case AtBarrier => s.(loop := AtNodes, barrier := Some(Loop))
    case AtNodes => s.(loop := AtHandOver, nodesMutex := Some(Loop))
    case AtHandOver => s.(loop := Building(0), barrier := None, size := |s.nodes|, seen := [])
    case Building(i) =>
      if i < s.size then s.(loop := Building(i + 1), seen := s.seen + [s.nodes[i]]) else s.(loop := Waiting)
    case Waiting => Wake(s)
    case Notifying(i) =>
      if i < s.size then s.(loop := Notifying(i + 1), told := s.told + [s.nodes[i]])
      else s.(loop := AtCheck, nodesMutex := None)
  }

  // rcl_wait returns; every triggered guard condition of the set is reset.
  function Wake(s: State): State {
    s.(loop := Notifying(0), told := [], latched := false)
  }

  // shutdown_mutex_ once an operation is over; has_node never took it.
  function Freed(s: State, op: Op): Option<Who> {
    if op.HasNode? then s.shutdownMutex else None
  }

  predicate Locking(p: Phase) {
    p.WantShutdown? || p.WantBarrier? || p.Interrupting? || p.WantNodes? || p.HandOver?
  }

  predicate Listing(p: Phase) {
    p.InNodes? || p.Scanning? || p.Unlocked?
  }

  predicate Ending(p: Phase) {
    p.Triggering? || p.Joining? || p.Finalising?
  }

  function CallerMove(s: State, c: Caller): State
    requires CanMove(s, Call(c))
  {
    var p := At(s, c);
    if p.Decide? then DecideMove(s, c, p.op)
    else if Locking(p) then LockMove(s, c)
    else if Listing(p) then ListMove(s, c)
    else EndMove(s, c)
  }

  function LockMove(s: State, c: Caller): State
    requires Locking(At(s, c))
  {
    match At(s, c)
    case WantShutdown(op) => s.(shutdownMutex := Some(Call(c)), callers := s.callers[c := Decide(op)])
    case WantBarrier(op) => s.(barrier := Some(Call(c)), callers := s.callers[c := Interrupting(op)])
    case Interrupting(op) => if s.finalised then Failed(s, c, op) else s.(latched := true, callers := s.callers[c := WantNodes(op)])
    case WantNodes(op) => s.(nodesMutex := Some(Call(c)), callers := s.callers[c := HandOver(op)])
    case HandOver(op) => s.(barrier := None, callers := s.callers[c := InNodes(op)])
  }

  function ListMove(s: State, c: Caller): State
    requires Listing(At(s, c)) && (At(s, c).Scanning? ==> ScanFits(s))
  {
    match At(s, c)
    case InNodes(op) => if op.HasNode? && op.node.Some? then Begun(s, c, op) else Performed(s, c, op)
    case Scanning(op) =>
      if s.scan.i == s.scan.end then Answered(s, c, op, false)
      else if (s.nodes + s.stale)[s.scan.i] == s.scan.node then Answered(s, c, op, true)
      else s.(scan := s.scan.(i := s.scan.i + 1))
    case Unlocked(op) => Erased(s, c, op)
  }

  function EndMove(s: State, c: Caller): State
    requires Ending(At(s, c))
  {
    match At(s, c)
    case Triggering => s.(latched := true, callers := s.callers[c := Joining])
    case Joining => s.(callers := s.callers[c := Finalising])
    case Finalising => s.(finalised := true, shutdownMutex := None, callers := s.callers[c := Idle])
  }

  function Begun(s: State, c: Caller, op: Op): State
    requires op.HasNode? && op.node.Some?
  {
    s.(scan := Scan(op.node.value, 0, |s.nodes|, |s.log|, false), callers := s.callers[c := Scanning(op)])
  }

  // A node that was found was in the list when the scan began, and the answer is logged for then; one
  // that was not found is logged for now.
  function Answered(s: State, c: Caller, op: Op, found: bool): State
    requires ScanFits(s)
  {
    var entry := Entry(op, Answer(found));
    s.(log := if found then s.log[..s.scan.mark] + [entry] + s.log[s.scan.mark..] else s.log + [entry],
       scan := NoScan, nodesMutex := None, callers := s.callers[c := Idle])
  }

  // add_node and remove_node with the nodes mutex, in one step: nobody else is at the list.
  function Performed(s: State, c: Caller, op: Op): State {
    s.(nodes := Effect(s.nodes, op), stale := StaleAfter(s.nodes, s.stale, op), log := s.log + [Entry(op, Found(s.nodes, op))],
       nodesMutex := None, shutdownMutex := Freed(s, op), callers := s.callers[c := Idle])
  }

  // remove_node after shutdown: a scan may be going on.
  function Erased(s: State, c: Caller, op: Op): State {
    s.(nodes := Effect(s.nodes, op), stale := StaleAfter(s.nodes, s.stale, op), log := s.log + [Entry(op, Found(s.nodes, op))],
       scan := if op.RemoveNode? && op.node.Some? then ScanAfter(s.scan, s.nodes, op.node.value) else s.scan,
       shutdownMutex := None, callers := s.callers[c := Idle])
  }

  function Failed(s: State, c: Caller, op: Op): State {
    s.(log := s.log + [Entry(op, InterruptFailed)],
       barrier := None, shutdownMutex := Freed(s, op), callers := s.callers[c := Idle])
  }

  function Leave(s: State, c: Caller, op: Op, outcome: Outcome): State {
    s.(log := s.log + [Entry(op, outcome)], shutdownMutex := None, callers := s.callers[c := Idle])
  }

  function DecideMove(s: State, c: Caller, op: Op): State {
    match op
    case Start =>
      if s.flag then Leave(s, c, op, ShutdownError)
      else if s.started then Leave(s, c, op, Finished)
      else Leave(s, c, op, Finished).(started := true, loop := AtCheck)
    case Shutdown =>
      if s.flag then Leave(s, c, op, Finished)
      else s.(flag := true, log := s.log + [Entry(op, Finished)],
              callers := s.callers[c := if s.started then Triggering else Finalising])
    case AddNode(_) =>
      if s.flag then Leave(s, c, op, ShutdownError) else s.(callers := s.callers[c := WantBarrier(op)])
    case RemoveNode(_) => s.(callers := s.callers[c := if s.flag then Unlocked(op) else WantBarrier(op)])
    case HasNode(_) => s
  }

  datatype Event =
    | Called(c: Caller, op: Op)
    | Moved(w: Who)
    | Woken               // a graph change or the context's own shutdown ends rcl_wait

  predicate Enabled(s: State, e: Event) {
    match e
    case Called(c, _) => At(s, c) == Idle
    case Moved(w) => CanMove(s, w)
    case Woken => s.loop == Waiting
  }

  // A call with a null node ends at once; has_node does not take shutdown_mutex_.
  function Begin(s: State, c: Caller, op: Op): State {
    if !op.Start? && !op.Shutdown? && op.node.None? then s.(log := s.log + [Entry(op, Found(s.nodes, op))])
    else s.(callers := s.callers[c := if op.HasNode? then WantBarrier(op) else WantShutdown(op)])
  }

  function Step(s: State, e: Event): State {
    if !Enabled(s, e) then s else
    match e
    case Called(c, op) => Begin(s, c, op)
    case Moved(w) => if w.Loop? then LoopMove(s) else CallerMove(s, w.caller)
    case Woken => Wake(s)
  }

  function Run(events: seq<Event>): State {
    if events == [] then Initial() else Step(Run(events[..|events| - 1]), events[|events| - 1])
  }
}
