/** The daemon's threads as a transition system over all interleavings: which locks each
    program point holds, which it blocks on, and what it knows of the session table. */
module Sessions {
  import opened Bytes
  import opened Wrappers

  type Tid = nat
  type Ptr = nat
  type Id = seq<byte>

  datatype Lock = EngineLock | SessionsLock | SessionLock(p: Ptr) | MmapLock | WakeLock

  /** What session_remove_at returns to. */
  datatype Cont =
    | AfterClose
    | AfterEvict(id: Id)
    | AfterReplace(id: Id)
    | AfterReap(i: nat, start: nat)
    | AfterLoad

  /** The oldest idle session the eviction scan has found: its place, and the session. */
  datatype Best = NoBest | Best(i: nat, p: Ptr)

  /** Program points.  A point named Want is about to block on the lock its thread needs next;
      eng says that engine_mutex is held, as handle_generate does. */
  datatype Pc =
    | Idle
    | GenWant(id: Id) | GenHave(id: Id) | GenMiss
    | FindWant(id: Id, eng: bool) | FindScan(id: Id, eng: bool) | FindLock(p: Ptr, eng: bool)
    | FindDone(p: Ptr, eng: bool) | FindMiss(eng: bool)
    | Using(p: Ptr, eng: bool)
    | CloseWant(id: Id) | CloseScan(id: Id) | CloseLock(i: nat, p: Ptr)
    | CreateWant(id: Id) | CreateStart(id: Id)
    | EvictAt(id: Id, i: nat, best: Best, tried: set<Ptr>)
    | EvictTried(id: Id, i: nat, p: Ptr, best: Best, tried: set<Ptr>)
    | ReplaceScan(id: Id) | ReplaceLock(id: Id, i: nat, p: Ptr)
    | CreateAlloc(id: Id) | CreatePublish(id: Id, p: Ptr) | CreateLock(p: Ptr) | CreateDone(p: Ptr)
    | Remove(i: nat, p: Ptr, cont: Cont) | Removing(p: Ptr, cont: Cont) | Unlocked(p: Ptr, cont: Cont)
    | LeaveSessions
    | ReapWant | ReapAt(i: nat, start: nat) | ReapTried(i: nat, p: Ptr, start: nat)
    | LoadWant | LoadWantSessions | LoadLoop | LoadLock(p: Ptr) | LoadOpen
    | HealthWant | HealthHave | HealthWantEngine | HealthHaveEngine

  /** A call into the cache provider: mmap_mutex for the arena, wake_mutex for the socket,
      the second also under the first. */
  datatype Call = NoCall | WantMmap | HaveMmap | WantWake(mmap: bool) | HaveWake(mmap: bool)

  datatype Thread = Thread(pc: Pc, call: Call)

  /** What the threads share: the session table, the sessions that are allocated, with their
      ids and times of last use, and the engine. */
  datatype World = World(
    table: seq<Ptr>,
    live: set<Ptr>,
    ids: map<Ptr, Id>,
    lastActive: map<Ptr, nat>,
    next: Ptr,
    now: nat,
    engine: bool,
    maxSessions: nat,
    timeout: nat)

  datatype State = State(threads: map<Tid, Thread>, w: World)

  // ----- locks -----

  function Engine(eng: bool): set<Lock> {
    if eng then {EngineLock} else {}
  }

  function ContHeld(cont: Cont): set<Lock> {
    Engine(cont.AfterLoad?) + {SessionsLock}
  }

  function BestHeld(best: Best): set<Lock> {
    if best.Best? then {SessionLock(best.p)} else {}
  }

  /** The locks held at a program point. */
  function PcHeld(pc: Pc): set<Lock> {
    match pc
    case Idle => {}
    case GenWant(_) => {}
    case GenHave(_) => {EngineLock}
    case GenMiss => {EngineLock}
    case FindWant(_, eng) => Engine(eng)
    case FindScan(_, eng) => Engine(eng) + {SessionsLock}
    case FindLock(_, eng) => Engine(eng) + {SessionsLock}
    case FindDone(p, eng) => Engine(eng) + {SessionsLock, SessionLock(p)}
    case FindMiss(eng) => Engine(eng) + {SessionsLock}
    case Using(p, eng) => Engine(eng) + {SessionLock(p)}
    case CloseWant(_) => {}
    case CloseScan(_) => {SessionsLock}
    case CloseLock(_, _) => {SessionsLock}
    case CreateWant(_) => {}
    case CreateStart(_) => {SessionsLock}
    case EvictAt(_, _, best, _) => {SessionsLock} + BestHeld(best)
    case EvictTried(_, _, p, best, _) => {SessionsLock, SessionLock(p)} + BestHeld(best)
    case ReplaceScan(_) => {SessionsLock}
    case ReplaceLock(_, _, _) => {SessionsLock}
    case CreateAlloc(_) => {SessionsLock}
    case CreatePublish(_, _) => {SessionsLock}
    case CreateLock(_) => {SessionsLock}
    case CreateDone(p) => {SessionsLock, SessionLock(p)}
    case Remove(_, p, cont) => ContHeld(cont) + {SessionLock(p)}
    case Removing(p, cont) => ContHeld(cont) + {SessionLock(p)}
    case Unlocked(_, cont) => ContHeld(cont)
    case LeaveSessions => {SessionsLock}
    case ReapWant => {}
    case ReapAt(_, _) => {SessionsLock}
    case ReapTried(_, p, _) => {SessionsLock, SessionLock(p)}
    case LoadWant => {}
    case LoadWantSessions => {EngineLock}
    case LoadLoop => {EngineLock, SessionsLock}
    case LoadLock(_) => {EngineLock, SessionsLock}
    case LoadOpen => {EngineLock}
    case HealthWant => {}
    case HealthHave => {SessionsLock}
    case HealthWantEngine => {}
    case HealthHaveEngine => {EngineLock}
  }

  function CallHeld(call: Call): set<Lock> {
    match call
    case NoCall => {}
    case WantMmap => {}
    case HaveMmap => {MmapLock}
    case WantWake(mmap) => if mmap then {MmapLock} else {}
    case HaveWake(mmap) => if mmap then {MmapLock, WakeLock} else {WakeLock}
  }

  function Held(th: Thread): set<Lock> {
    PcHeld(th.pc) + CallHeld(th.call)
  }

  /** The lock a program point blocks on. */
  function PcWants(pc: Pc): Option<Lock> {
    match pc
    case GenWant(_) => Some(EngineLock)
    case FindWant(_, _) => Some(SessionsLock)
    case FindLock(p, _) => Some(SessionLock(p))
    case CloseWant(_) => Some(SessionsLock)
    case CloseLock(_, p) => Some(SessionLock(p))
    case CreateWant(_) => Some(SessionsLock)
    case ReplaceLock(_, _, p) => Some(SessionLock(p))
    case CreateLock(p) => Some(SessionLock(p))
    case ReapWant => Some(SessionsLock)
    case LoadWant => Some(EngineLock)
    case LoadWantSessions => Some(SessionsLock)
    case LoadLock(p) => Some(SessionLock(p))
    case HealthWant => Some(SessionsLock)
    case HealthWantEngine => Some(EngineLock)
    case _ => None
  }

  function Wants(th: Thread): Option<Lock> {
    match th.call
    case NoCall => PcWants(th.pc)
    case WantMmap => Some(MmapLock)
    case WantWake(_) => Some(WakeLock)
    case _ => None
  }

  /** No thread holds l. */
  ghost predicate Free(s: State, l: Lock) {
    forall t :: t in s.threads ==> l !in Held(s.threads[t])
  }

  // ----- steps -----

  /** What the scheduler, the clock and the requests decide. */
  datatype Choice =
    | Go
    | Other
    | Start(request: Pc)
    | BeginCall(wakeOnly: bool)

  function At(s: State, t: Tid, pc: Pc): State {
    s.(threads := s.threads[t := Thread(pc, NoCall)])
  }

  /** A step that changes the world as well. */
  function With(s: State, t: Tid, w: World, pc: Pc): State {
    State(s.threads[t := Thread(pc, NoCall)], w)
  }

  function Calls(s: State, t: Tid, call: Call): State
    requires t in s.threads
  {
    s.(threads := s.threads[t := s.threads[t].(call := call)])
  }

  /** A blocking acquire: possible only while l is free. */
  ghost function Acquire(s: State, t: Tid, l: Lock, pc: Pc): Option<State> {
    if Free(s, l) then Some(At(s, t, pc)) else None
  }

  /** session_find: the first entry with this id. */
  function FindIndex(w: World, id: Id, from: nat): (i: nat)
    requires from <= |w.table|
    ensures from <= i <= |w.table|
    ensures forall k :: from <= k < i ==> !HasId(w, w.table[k], id)
    ensures i < |w.table| ==> HasId(w, w.table[i], id)
    decreases |w.table| - from
  {
    if from == |w.table| || HasId(w, w.table[from], id) then from else FindIndex(w, id, from + 1)
  }

  predicate HasId(w: World, p: Ptr, id: Id) {
    p in w.ids && w.ids[p] == id
  }

  /** Move the last entry into place i and drop the last place. */
  function SwapRemove(table: seq<Ptr>, i: nat): (r: seq<Ptr>)
    requires i < |table|
    ensures |r| == |table| - 1
  {
    table[i := table[|table|-1]][..|table|-1]
  }

  /** What a thread at rest may begin. */
  predicate IsRequest(pc: Pc) {
    pc.GenWant? || (pc.FindWant? && !pc.eng) || pc.CloseWant? || pc.CreateWant? || pc.ReapWant? || pc.LoadWant?
    || pc.HealthWant?
  }

  /** Where a thread may call the provider; a heartbeat, at rest, takes wake_mutex alone. */
  predicate MayCall(pc: Pc, wakeOnly: bool) {
    pc.Using? || pc.Removing? || (pc.Idle? && wakeOnly)
  }

  /** Inside a provider call: service_ensure_shm_arena calls the service under mmap_mutex. */
  ghost function CallStep(s: State, t: Tid, c: Choice): Option<State>
    requires t in s.threads
  {
    match s.threads[t].call
    case NoCall => None
    case WantMmap => if Free(s, MmapLock) then Some(Calls(s, t, HaveMmap)) else None
    case HaveMmap => Some(Calls(s, t, if c.Other? then WantWake(true) else NoCall))
    case WantWake(mmap) => if Free(s, WakeLock) then Some(Calls(s, t, HaveWake(mmap))) else None
    case HaveWake(mmap) => Some(Calls(s, t, if mmap then HaveMmap else NoCall))
  }

  /** session_find_and_lock, and the handlers around it. */
  ghost function FindStep(s: State, t: Tid, pc: Pc, c: Choice): Option<State> {
    match pc
    case GenWant(id) => Acquire(s, t, EngineLock, GenHave(id))
    case GenHave(id) => Some(At(s, t, if s.w.engine then FindWant(id, true) else GenMiss))
    case GenMiss => Some(At(s, t, Idle))
    case FindWant(id, eng) => Acquire(s, t, SessionsLock, FindScan(id, eng))
    case FindScan(id, eng) =>
      var i := FindIndex(s.w, id, 0);
      Some(At(s, t, if i < |s.w.table| then FindLock(s.w.table[i], eng) else FindMiss(eng)))
    case FindLock(p, eng) => Acquire(s, t, SessionLock(p), FindDone(p, eng))
    case FindDone(p, eng) => Some(At(s, t, Using(p, eng)))
    case FindMiss(eng) => Some(At(s, t, if eng then GenMiss else Idle))
    case Using(p, eng) =>
      if c.Other? then Some(With(s, t, s.w.(lastActive := s.w.lastActive[p := s.w.now]), pc))
      else Some(At(s, t, if eng then Using(p, false) else Idle))
    case _ => None
  }

  /** session_close, and session_remove_at wherever it is called. */
  ghost function RemoveStep(s: State, t: Tid, pc: Pc): Option<State> {
    match pc
    case CloseWant(id) => Acquire(s, t, SessionsLock, CloseScan(id))
    case CloseScan(id) =>
      var i := FindIndex(s.w, id, 0);
      Some(At(s, t, if i < |s.w.table| then CloseLock(i, s.w.table[i]) else LeaveSessions))
    case CloseLock(i, p) => Acquire(s, t, SessionLock(p), Remove(i, p, AfterClose))
    case Remove(i, p, cont) =>
      if i < |s.w.table|
      then Some(With(s, t, s.w.(table := SwapRemove(s.w.table, i)), Removing(s.w.table[i], cont))) else None
    case Removing(p, cont) => Some(At(s, t, Unlocked(p, cont)))
    case Unlocked(p, cont) => Some(With(s, t, s.w.(live := s.w.live - {p}), Resume(cont)))
    case LeaveSessions => Some(At(s, t, Idle))
    case _ => None
  }

  /** Where the caller of session_remove_at goes on. */
  function Resume(cont: Cont): Pc {
    match cont
    case AfterClose => LeaveSessions
    case AfterEvict(id) => ReplaceScan(id)
    case AfterReplace(id) => CreateAlloc(id)
    case AfterReap(i, start) => ReapAt(i, start)
    case AfterLoad => LoadLoop
  }

  /** session_create. */
  ghost function CreateStep(s: State, t: Tid, pc: Pc, c: Choice): Option<State> {
    match pc
    case CreateWant(id) => Acquire(s, t, SessionsLock, CreateStart(id))
    case CreateStart(id) =>
      Some(At(s, t, if s.w.maxSessions > 0 && |s.w.table| >= s.w.maxSessions
                    then EvictAt(id, 0, NoBest, {}) else ReplaceScan(id)))
    case EvictAt(id, i, best, tried) =>
      if i < |s.w.table| then
        var p := s.w.table[i];
        if Free(s, SessionLock(p)) then Some(At(s, t, EvictTried(id, i, p, best, tried)))
        else Some(At(s, t, EvictAt(id, i + 1, best, tried)))
      else if best.NoBest? then Some(At(s, t, LeaveSessions))
      else Some(At(s, t, Remove(best.i, best.p, AfterEvict(id))))
    case EvictTried(id, i, p, best, tried) =>
      if p !in s.w.lastActive || (best.Best? && best.p !in s.w.lastActive) then None
      else if best.NoBest? || s.w.lastActive[p] < s.w.lastActive[best.p]
      then Some(At(s, t, EvictAt(id, i + 1, Best(i, p), tried + {p})))
      else Some(At(s, t, EvictAt(id, i + 1, best, tried + {p})))
    case ReplaceScan(id) =>
      var i := FindIndex(s.w, id, 0);
      Some(At(s, t, if i < |s.w.table| then ReplaceLock(id, i, s.w.table[i]) else CreateAlloc(id)))
    case ReplaceLock(id, i, p) => Acquire(s, t, SessionLock(p), Remove(i, p, AfterReplace(id)))
    case CreateAlloc(id) =>
      if c.Other? then Some(At(s, t, LeaveSessions))
      else Some(With(s, t, s.w.(live := s.w.live + {s.w.next}, ids := s.w.ids[s.w.next := id],
                                lastActive := s.w.lastActive[s.w.next := s.w.now], next := s.w.next + 1),
                     CreatePublish(id, s.w.next)))
    case CreatePublish(id, p) =>
      if c.Other? then Some(With(s, t, s.w.(live := s.w.live - {p}), LeaveSessions))
      else Some(With(s, t, s.w.(table := s.w.table + [p]), CreateLock(p)))
    case CreateLock(p) => Acquire(s, t, SessionLock(p), CreateDone(p))
    case CreateDone(p) => Some(At(s, t, Using(p, false)))
    case _ => None
  }

  /** The reaper, handle_load_model, handle_health and handle_stats. */
  ghost function OtherStep(s: State, t: Tid, pc: Pc, c: Choice): Option<State> {
    match pc
    case ReapWant => Acquire(s, t, SessionsLock, ReapAt(0, s.w.now))
    case ReapAt(i, start) =>
      if i >= |s.w.table| then Some(At(s, t, LeaveSessions))
      else if Free(s, SessionLock(s.w.table[i])) then Some(At(s, t, ReapTried(i, s.w.table[i], start)))
      else Some(At(s, t, ReapAt(i + 1, start)))
    case ReapTried(i, p, start) =>
      if p !in s.w.lastActive then None
      else if start as int - s.w.lastActive[p] > s.w.timeout then Some(At(s, t, Remove(i, p, AfterReap(i, start))))
      else Some(At(s, t, ReapAt(i + 1, start)))
    case LoadWant => Acquire(s, t, EngineLock, LoadWantSessions)
    case LoadWantSessions => Acquire(s, t, SessionsLock, LoadLoop)
    case LoadLoop =>
      if s.w.engine && |s.w.table| > 0 then Some(At(s, t, LoadLock(s.w.table[0])))
      else Some(With(s, t, s.w.(engine := false), LoadOpen))
    case LoadLock(p) => Acquire(s, t, SessionLock(p), Remove(0, p, AfterLoad))
    case LoadOpen => Some(With(s, t, s.w.(engine := !c.Other?), Idle))
    case HealthWant => Acquire(s, t, SessionsLock, HealthHave)
    case HealthHave => Some(At(s, t, HealthWantEngine))
    case HealthWantEngine => Acquire(s, t, EngineLock, HealthHaveEngine)
    case HealthHaveEngine => Some(At(s, t, Idle))
    case _ => None
  }

  /** One step of thread t. */
  ghost function Step(s: State, t: Tid, c: Choice): Option<State>
    requires t in s.threads
  {
    var pc := s.threads[t].pc;
    if s.threads[t].call != NoCall then CallStep(s, t, c)
    else if c.BeginCall? then
      if MayCall(pc, c.wakeOnly) then Some(Calls(s, t, if c.wakeOnly then WantWake(false) else WantMmap)) else None
    else if c.Start? then
      if pc.Idle? && IsRequest(c.request) && (c.request.ReapWant? ==> s.w.timeout > 0)
      then Some(At(s, t, c.request)) else None
    else if FindStep(s, t, pc, c).Some? then FindStep(s, t, pc, c)
    else if RemoveStep(s, t, pc).Some? then RemoveStep(s, t, pc)
    else if CreateStep(s, t, pc, c).Some? then CreateStep(s, t, pc, c)
    else OtherStep(s, t, pc, c)
  }

  /** Some thread steps, or the clock advances. */
  ghost predicate Next(s: State, s': State) {
    || (exists t, c :: t in s.threads && Step(s, t, c) == Some(s'))
    || s' == s.(w := s.w.(now := s.w.now + 1))
  }

  ghost predicate Init(s: State) {
    && s.w.table == [] && s.w.live == {} && s.w.ids == map[] && s.w.lastActive == map[] && s.w.next == 0
    && forall t :: t in s.threads ==> s.threads[t] == Thread(Idle, NoCall)
  }

  // ----- what every reachable state keeps -----

  ghost predicate Room(w: World) {
    w.maxSessions > 0 ==> |w.table| < w.maxSessions
  }

  ghost predicate NoneHas(w: World, id: Id) {
    forall i :: 0 <= i < |w.table| ==> !HasId(w, w.table[i], id)
  }

  /** Table entries are distinct live sessions with distinct ids, and not too many. */
  ghost predicate TableOk(w: World) {
    && (forall i :: 0 <= i < |w.table| ==> w.table[i] in w.live)
    && (forall i, j :: 0 <= i < j < |w.table| ==> w.table[i] != w.table[j])
    && (forall i, j :: 0 <= i < j < |w.table| && w.table[i] in w.ids && w.table[j] in w.ids ==>
          w.ids[w.table[i]] != w.ids[w.table[j]])
    && (w.maxSessions > 0 ==> |w.table| <= w.maxSessions)
  }

  ghost predicate LiveOk(w: World) {
    forall p :: p in w.live ==> p < w.next && p in w.ids && p in w.lastActive && w.lastActive[p] <= w.now
  }

  /** What the rest of session_create or the reaper relies on after a removal. */
  ghost predicate ContOk(w: World, p: Ptr, cont: Cont, removed: bool) {
    match cont
    case AfterClose => true
    case AfterEvict(_) => w.maxSessions > 0 && (removed ==> |w.table| < w.maxSessions)
    case AfterReplace(id) => Room(w) && HasId(w, p, id) && (removed ==> NoneHas(w, id))
    case AfterReap(i, start) =>
      start <= w.now && p in w.lastActive && start as int - w.lastActive[p] > w.timeout
    case AfterLoad => true
  }

  /** The eviction scan: the best is in its place, and no session tried is older. */
  ghost predicate ScanOk(w: World, i: nat, best: Best, tried: set<Ptr>) {
    && i <= |w.table|
    && w.maxSessions > 0
    && (best.Best? ==> best.i < i && w.table[best.i] == best.p)
    && (best.NoBest? ==> tried == {})
    && forall q :: q in tried ==>
         q in w.table && best.Best? && q in w.live && best.p in w.live && q in w.lastActive && best.p in w.lastActive
         && w.lastActive[best.p] <= w.lastActive[q]
  }

  ghost predicate Here(w: World, i: nat, p: Ptr) {
    i < |w.table| && w.table[i] == p
  }

  /** What a thread knows at its program point. */
  ghost predicate PcOk(w: World, pc: Pc) {
    match pc
    case FindLock(p, _) => p in w.table
    case FindDone(p, _) => p in w.table
    case Using(p, _) => p in w.table
    case CloseLock(i, p) => Here(w, i, p)
    case EvictAt(_, i, best, tried) => ScanOk(w, i, best, tried)
    case EvictTried(_, i, p, best, tried) => ScanOk(w, i, best, tried) && Here(w, i, p)
    case ReplaceScan(_) => Room(w)
    case ReplaceLock(id, i, p) => Room(w) && Here(w, i, p) && HasId(w, p, id)
    case CreateAlloc(id) => Room(w) && NoneHas(w, id)
    case CreatePublish(id, p) => Room(w) && NoneHas(w, id) && p in w.live && p !in w.table && HasId(w, p, id)
    case CreateLock(p) => p in w.table
    case CreateDone(p) => p in w.table
    case Remove(i, p, cont) => Here(w, i, p) && ContOk(w, p, cont, false)
    case Removing(p, cont) => p in w.live && p !in w.table && ContOk(w, p, cont, true)
    case Unlocked(p, cont) => p in w.live && p !in w.table && ContOk(w, p, cont, true)
    case ReapAt(_, start) => start <= w.now
    case ReapTried(i, p, start) => start <= w.now && Here(w, i, p)
    case LoadLock(p) => Here(w, 0, p)
    case _ => true
  }

  /** A provider call is made only where one may be. */
  ghost predicate CallOk(th: Thread) {
    match th.call
    case NoCall => true
    case WantMmap => MayCall(th.pc, false)
    case HaveMmap => MayCall(th.pc, false)
    case WantWake(mmap) => MayCall(th.pc, !mmap)
    case HaveWake(mmap) => MayCall(th.pc, !mmap)
  }

  ghost predicate Exclusive(s: State) {
    forall t, u :: t in s.threads && u in s.threads && t != u ==> Held(s.threads[t]) !! Held(s.threads[u])
  }

  /** The session a thread alone answers for: off the table, and not freed. */
  predicate Owns(pc: Pc, p: Ptr) {
    match pc
    case CreatePublish(_, q) => q == p
    case Removing(q, _) => q == p
    case Unlocked(q, _) => q == p
    case _ => false
  }

  /** Nothing leaks: a live session is in the table, or some thread is about to free or to
      publish it. */
  ghost predicate NoLeak(s: State) {
    forall p :: p in s.w.live ==> p in s.w.table || exists t :: t in s.threads && Owns(s.threads[t].pc, p)
  }

  ghost predicate Inv(s: State) {
    && Exclusive(s)
    && TableOk(s.w) && LiveOk(s.w) && NoLeak(s)
    && forall t :: t in s.threads ==> PcOk(s.w, s.threads[t].pc) && CallOk(s.threads[t])
  }

  lemma InitInv(s: State)
    requires Init(s)
    ensures Inv(s)
  {
  }

  /** Moving one thread keeps the rest, if it takes only free locks and the table stands. */
  lemma ThreadMoved(s: State, t: Tid, th: Thread)
    requires Inv(s) && t in s.threads
    requires forall l :: l in Held(th) ==> l in Held(s.threads[t]) || Free(s, l)
    requires PcOk(s.w, th.pc) && CallOk(th)
    requires forall p :: Owns(s.threads[t].pc, p) ==> Owns(th.pc, p)
    ensures Inv(s.(threads := s.threads[t := th]))
  {
    hide Held, PcOk, CallOk, TableOk, LiveOk, Owns;
    var s' := s.(threads := s.threads[t := th]);
    forall u | u in s.threads && u != t
      ensures Held(th) !! Held(s.threads[u])
    {
    }
    forall p | p in s'.w.live
      ensures p in s'.w.table || exists u :: u in s'.threads && Owns(s'.threads[u].pc, p)
    {
      if p !in s.w.table {
        var u :| u in s.threads && Owns(s.threads[u].pc, p);
        assert u in s'.threads && Owns(s'.threads[u].pc, p);
      }
    }
  }

  lemma AtMoves(s: State, t: Tid, pc: Pc)
    requires Inv(s) && t in s.threads && s.threads[t].call == NoCall
    requires forall l :: l in PcHeld(pc) ==> l in PcHeld(s.threads[t].pc) || Free(s, l)
    requires PcOk(s.w, pc)
    requires forall p :: Owns(s.threads[t].pc, p) ==> Owns(pc, p)
    ensures Inv(At(s, t, pc))
  {
    hide PcHeld, PcOk, Owns, Free;
    ThreadMoved(s, t, Thread(pc, NoCall));
  }

  /** A step that takes no lock. */
  lemma AtDrops(s: State, t: Tid, pc: Pc)
    requires Inv(s) && t in s.threads && s.threads[t].call == NoCall
    requires PcHeld(pc) <= PcHeld(s.threads[t].pc) && PcOk(s.w, pc)
    requires forall p :: !Owns(s.threads[t].pc, p)
    ensures Inv(At(s, t, pc))
  {
    hide PcHeld, PcOk, Owns, Free, Exclusive, TableOk, LiveOk, NoLeak;
    AtMoves(s, t, pc);
  }

  /** A step that takes one free lock. */
  lemma AtTakes(s: State, t: Tid, l: Lock, pc: Pc)
    requires Inv(s) && t in s.threads && s.threads[t].call == NoCall && Free(s, l)
    requires PcHeld(pc) <= PcHeld(s.threads[t].pc) + {l} && PcOk(s.w, pc)
    requires forall p :: !Owns(s.threads[t].pc, p)
    ensures Inv(At(s, t, pc))
  {
    hide PcHeld, PcOk, Owns, Free, Exclusive, TableOk, LiveOk, NoLeak;
    AtMoves(s, t, pc);
  }

  // ----- steps that leave the world alone -----

  lemma CallKeeps(s: State, t: Tid, c: Choice)
    requires Inv(s) && t in s.threads && CallStep(s, t, c).Some?
    ensures Inv(CallStep(s, t, c).value)
  {
    hide PcHeld, PcOk, TableOk, LiveOk, NoLeak, Owns;
    var s' := CallStep(s, t, c).value;
    ThreadMoved(s, t, s'.threads[t]);
  }

  lemma BeginKeeps(s: State, t: Tid, wakeOnly: bool)
    requires Inv(s) && t in s.threads && s.threads[t].call == NoCall && MayCall(s.threads[t].pc, wakeOnly)
    ensures Inv(Calls(s, t, if wakeOnly then WantWake(false) else WantMmap))
  {
    hide PcHeld, PcOk, TableOk, LiveOk, NoLeak, Owns;
    var s' := Calls(s, t, if wakeOnly then WantWake(false) else WantMmap);
    ThreadMoved(s, t, s'.threads[t]);
  }

  lemma FindScanKeeps(s: State, t: Tid, c: Choice)
    requires Inv(s) && t in s.threads && s.threads[t].call == NoCall && s.threads[t].pc.FindScan?
    ensures Inv(FindStep(s, t, s.threads[t].pc, c).value)
  {
    hide TableOk, LiveOk, NoLeak, Free, Exclusive;
    AtDrops(s, t, FindStep(s, t, s.threads[t].pc, c).value.threads[t].pc);
  }

  lemma FindKeeps(s: State, t: Tid, c: Choice)
    requires Inv(s) && t in s.threads && s.threads[t].call == NoCall && FindStep(s, t, s.threads[t].pc, c).Some?
    requires !(s.threads[t].pc.Using? && c.Other?)
    ensures Inv(FindStep(s, t, s.threads[t].pc, c).value)
  {
    hide TableOk, LiveOk, NoLeak, Free, Exclusive, FindIndex;
    var pc := s.threads[t].pc;
    match pc
    case GenWant(id) => AtTakes(s, t, EngineLock, GenHave(id));
    case FindWant(id, eng) => AtTakes(s, t, SessionsLock, FindScan(id, eng));
    case FindLock(p, eng) => AtTakes(s, t, SessionLock(p), FindDone(p, eng));
    case FindScan(_, _) => FindScanKeeps(s, t, c);
    case GenHave(id) => AtDrops(s, t, if s.w.engine then FindWant(id, true) else GenMiss);
    case GenMiss => AtDrops(s, t, Idle);
    case FindDone(p, eng) => AtDrops(s, t, Using(p, eng));
    case FindMiss(eng) => AtDrops(s, t, if eng then GenMiss else Idle);
    case Using(p, eng) => AtDrops(s, t, if eng then Using(p, false) else Idle);
    case _ =>
  }

  // ----- steps that change the world -----

  /** A world step keeps the invariant if the other threads' knowledge survives it. */
  lemma WorldMoved(s: State, t: Tid, w: World, pc: Pc)
    requires Inv(s) && t in s.threads && s.threads[t].call == NoCall
    requires PcHeld(pc) <= PcHeld(s.threads[t].pc)
    requires TableOk(w) && LiveOk(w) && PcOk(w, pc)
    requires forall u :: u in s.threads && u != t ==> PcOk(w, s.threads[u].pc)
    requires forall p :: p in w.live && p !in w.table && !Owns(pc, p) ==>
               p in s.w.live && p !in s.w.table && !Owns(s.threads[t].pc, p)
    ensures Inv(With(s, t, w, pc))
  {
    hide PcHeld, PcOk, TableOk, LiveOk, Owns;
    var s' := With(s, t, w, pc);
    forall p | p in w.live
      ensures p in w.table || exists u :: u in s'.threads && Owns(s'.threads[u].pc, p)
    {
      if p !in w.table {
        if Owns(pc, p) {
          assert Owns(s'.threads[t].pc, p);
        } else {
          var u :| u in s.threads && Owns(s.threads[u].pc, p);
          assert u != t && Owns(s'.threads[u].pc, p);
        }
      }
    }
    forall u | u in s.threads && u != t
      ensures Held(s'.threads[t]) !! Held(s'.threads[u])
    {
      assert Held(s'.threads[t]) <= Held(s.threads[t]);
    }
  }

  /** Without sessions_mutex, a thread knows at most that its own session is in the table. */
  lemma KnowsLittle(w: World, pc: Pc)
    requires SessionsLock !in PcHeld(pc) && (pc.Using? ==> pc.p in w.table)
    ensures PcOk(w, pc)
  {
  }

  /** While t holds sessions_mutex, the others keep what they know if the table keeps theirs. */
  lemma OthersKnow(s: State, t: Tid, w: World, gone: set<Ptr>)
    requires Inv(s) && t in s.threads && SessionsLock in PcHeld(s.threads[t].pc)
    requires forall p :: p in s.w.table && p !in gone ==> p in w.table
    requires forall p :: p in gone ==> SessionLock(p) in PcHeld(s.threads[t].pc)
    ensures forall u :: u in s.threads && u != t ==> PcOk(w, s.threads[u].pc)
  {
    hide PcOk, TableOk, LiveOk, NoLeak;
    forall u | u in s.threads && u != t
      ensures PcOk(w, s.threads[u].pc)
    {
      var pc := s.threads[u].pc;
      assert Held(s.threads[t]) !! Held(s.threads[u]);
      if pc.Using? {
        UsingInTable(s.w, pc);
        assert SessionLock(pc.p) in PcHeld(pc);
      }
      KnowsLittle(w, pc);
    }
  }

  lemma UsingInTable(w: World, pc: Pc)
    requires pc.Using? && PcOk(w, pc)
    ensures pc.p in w.table
  {
  }

  lemma SwapRemoved(w: World, i: nat)
    requires TableOk(w) && i < |w.table|
    ensures var w' := w.(table := SwapRemove(w.table, i));
            && TableOk(w') && w.table[i] !in w'.table
            && (forall p :: p in w.table && p != w.table[i] ==> p in w'.table)
            && (forall p :: p in w'.table ==> p in w.table)
  {
    var r := SwapRemove(w.table, i);
    forall p | p in w.table && p != w.table[i]
      ensures p in r
    {
      var k :| 0 <= k < |w.table| && w.table[k] == p;
      assert r[if k == |w.table| - 1 then i else k] == p;
    }
  }

  lemma RemoveKeeps(s: State, t: Tid)
    requires Inv(s) && t in s.threads && s.threads[t].call == NoCall && s.threads[t].pc.Remove?
    requires RemoveStep(s, t, s.threads[t].pc).Some?
    ensures Inv(RemoveStep(s, t, s.threads[t].pc).value)
  {
    var pc := s.threads[t].pc;
    var w := s.w.(table := SwapRemove(s.w.table, pc.i));
    SwapRemoved(s.w, pc.i);
    ContAfterRemoval(s.w, pc.i, pc.p, pc.cont);
    hide PcOk, TableOk, NoLeak, SwapRemove;
    RemoveKnows(s.w, pc);
    OthersKnow(s, t, w, {pc.p});
    WorldMoved(s, t, w, Removing(pc.p, pc.cont));
  }

  lemma RemoveKnows(w: World, pc: Pc)
    requires pc.Remove? && PcOk(w, pc)
    ensures Here(w, pc.i, pc.p) && ContOk(w, pc.p, pc.cont, false)
  {
  }

  lemma ContAfterRemoval(w: World, i: nat, p: Ptr, cont: Cont)
    requires TableOk(w) && LiveOk(w) && Here(w, i, p) && ContOk(w, p, cont, false)
    ensures var w' := w.(table := SwapRemove(w.table, i)); PcOk(w', Removing(p, cont)) && LiveOk(w')
  {
    var w' := w.(table := SwapRemove(w.table, i));
    SwapRemoved(w, i);
    if cont.AfterReplace? {
      forall k | 0 <= k < |w'.table|
        ensures !HasId(w', w'.table[k], cont.id)
      {
        var j := if k == i then |w.table| - 1 else k;
        assert w'.table[k] == w.table[j] && j != i;
      }
    }
  }

  lemma FreeKeeps(s: State, t: Tid)
    requires Inv(s) && t in s.threads && s.threads[t].call == NoCall && s.threads[t].pc.Unlocked?
    ensures Inv(RemoveStep(s, t, s.threads[t].pc).value)
  {
    var pc := s.threads[t].pc;
    var w := s.w.(live := s.w.live - {pc.p});
    FreedWorld(s.w, pc);
    hide PcOk, TableOk, LiveOk, NoLeak;
    OthersKnow(s, t, w, {});
    WorldMoved(s, t, w, Resume(pc.cont));
  }

  lemma FreedWorld(w: World, pc: Pc)
    requires TableOk(w) && LiveOk(w) && pc.Unlocked? && PcOk(w, pc)
    ensures var w' := w.(live := w.live - {pc.p});
            TableOk(w') && LiveOk(w') && PcOk(w', Resume(pc.cont)) && pc.p !in w.table
  {
  }

  lemma RemoveStepKeeps(s: State, t: Tid)
    requires Inv(s) && t in s.threads && s.threads[t].call == NoCall && RemoveStep(s, t, s.threads[t].pc).Some?
    ensures Inv(RemoveStep(s, t, s.threads[t].pc).value)
  {
    hide TableOk, LiveOk, NoLeak, Free, Exclusive;
    var pc := s.threads[t].pc;
    match pc
    case Remove(_, _, _) => RemoveKeeps(s, t);
    case Unlocked(_, _) => FreeKeeps(s, t);
    case Removing(p, cont) => UnlockKeeps(s, t);
    case CloseWant(id) => AtTakes(s, t, SessionsLock, CloseScan(id));
    case CloseScan(_) => AtDrops(s, t, RemoveStep(s, t, pc).value.threads[t].pc);
    case CloseLock(i, p) => AtTakes(s, t, SessionLock(p), Remove(i, p, AfterClose));
    case LeaveSessions => AtDrops(s, t, Idle);
    case _ =>
  }

  lemma UnlockKeeps(s: State, t: Tid)
    requires Inv(s) && t in s.threads && s.threads[t].call == NoCall && s.threads[t].pc.Removing?
    ensures Inv(RemoveStep(s, t, s.threads[t].pc).value)
  {
    hide TableOk, LiveOk, NoLeak, Free, Exclusive, ContOk;
    AtMoves(s, t, Unlocked(s.threads[t].pc.p, s.threads[t].pc.cont));
  }

  lemma AllocWorld(w: World, id: Id)
    requires TableOk(w) && LiveOk(w) && PcOk(w, CreateAlloc(id))
    ensures var w' := w.(live := w.live + {w.next}, ids := w.ids[w.next := id],
                         lastActive := w.lastActive[w.next := w.now], next := w.next + 1);
            TableOk(w') && LiveOk(w') && PcOk(w', CreatePublish(id, w.next))
  {
    assert w.next !in w.live;
  }

  lemma AllocKeeps(s: State, t: Tid, id: Id)
    requires Inv(s) && t in s.threads && s.threads[t] == Thread(CreateAlloc(id), NoCall)
    ensures Inv(CreateStep(s, t, CreateAlloc(id), Go).value)
  {
    hide PcOk, TableOk, LiveOk, NoLeak, Free;
    AllocWorld(s.w, id);
    var s' := CreateStep(s, t, CreateAlloc(id), Go).value;
    OthersKnow(s, t, s'.w, {});
    WorldMoved(s, t, s'.w, CreatePublish(id, s.w.next));
  }

  lemma PublishWorld(w: World, id: Id, p: Ptr)
    requires TableOk(w) && LiveOk(w) && PcOk(w, CreatePublish(id, p))
    ensures var w' := w.(table := w.table + [p]);
            TableOk(w') && LiveOk(w') && PcOk(w', CreateLock(p)) && (forall q :: q in w.table ==> q in w'.table)
    ensures var w' := w.(live := w.live - {p});
            TableOk(w') && LiveOk(w') && PcOk(w', LeaveSessions) && p !in w.table
  {
    var w' := w.(table := w.table + [p]);
    forall i, j | 0 <= i < j < |w'.table| && w'.table[i] in w.ids && w'.table[j] in w.ids
      ensures w.ids[w'.table[i]] != w.ids[w'.table[j]]
    {
      assert !HasId(w, w.table[i], id);
    }
  }

  lemma PublishKeeps(s: State, t: Tid, id: Id, p: Ptr, c: Choice)
    requires Inv(s) && t in s.threads && s.threads[t] == Thread(CreatePublish(id, p), NoCall)
    ensures Inv(CreateStep(s, t, CreatePublish(id, p), c).value)
  {
    hide PcOk, TableOk, LiveOk, NoLeak, Free;
    PublishWorld(s.w, id, p);
    var s' := CreateStep(s, t, CreatePublish(id, p), c).value;
    OthersKnow(s, t, s'.w, {});
    WorldMoved(s, t, s'.w, s'.threads[t].pc);
  }

  /** One turn of the eviction scan keeps its bookkeeping. */
  lemma ScanStep(w: World, id: Id, i: nat, p: Ptr, best: Best, tried: set<Ptr>)
    requires TableOk(w) && LiveOk(w) && PcOk(w, EvictTried(id, i, p, best, tried))
    ensures p in w.lastActive && (best.Best? ==> best.p in w.lastActive)
    ensures if best.NoBest? || w.lastActive[p] < w.lastActive[best.p]
            then PcOk(w, EvictAt(id, i + 1, Best(i, p), tried + {p}))
            else PcOk(w, EvictAt(id, i + 1, best, tried + {p}))
  {
    assert w.table[i] in w.live;
    if best.Best? {
      assert w.table[best.i] in w.live;
    }
  }

  lemma EvictAtKeeps(s: State, t: Tid, c: Choice)
    requires Inv(s) && t in s.threads && s.threads[t].call == NoCall && s.threads[t].pc.EvictAt?
    ensures Inv(CreateStep(s, t, s.threads[t].pc, c).value)
  {
    hide TableOk, LiveOk, NoLeak, Free, Exclusive;
    var pc := s.threads[t].pc;
    var pc' := CreateStep(s, t, pc, c).value.threads[t].pc;
    if pc.i < |s.w.table| && Free(s, SessionLock(s.w.table[pc.i])) {
      AtTakes(s, t, SessionLock(s.w.table[pc.i]), pc');
    } else {
      AtDrops(s, t, pc');
    }
  }

  lemma EvictTriedKeeps(s: State, t: Tid, c: Choice)
    requires Inv(s) && t in s.threads && s.threads[t].call == NoCall && s.threads[t].pc.EvictTried?
    requires CreateStep(s, t, s.threads[t].pc, c).Some?
    ensures Inv(CreateStep(s, t, s.threads[t].pc, c).value)
  {
    hide TableOk, LiveOk, NoLeak, Free, Exclusive, PcOk;
    var pc := s.threads[t].pc;
    ScanStep(s.w, pc.id, pc.i, pc.p, pc.best, pc.tried);
    AtDrops(s, t, CreateStep(s, t, pc, c).value.threads[t].pc);
  }

  lemma ReplaceScanKeeps(s: State, t: Tid, c: Choice)
    requires Inv(s) && t in s.threads && s.threads[t].call == NoCall && s.threads[t].pc.ReplaceScan?
    ensures Inv(CreateStep(s, t, s.threads[t].pc, c).value)
  {
    hide TableOk, LiveOk, NoLeak, Free, Exclusive;
    var pc := s.threads[t].pc;
    AtDrops(s, t, CreateStep(s, t, pc, c).value.threads[t].pc);
  }

  lemma CreateStepKeeps(s: State, t: Tid, c: Choice)
    requires Inv(s) && t in s.threads && s.threads[t].call == NoCall && CreateStep(s, t, s.threads[t].pc, c).Some?
    ensures Inv(CreateStep(s, t, s.threads[t].pc, c).value)
  {
    hide TableOk, LiveOk, NoLeak, Free, Exclusive, Room, NoneHas;
    var pc := s.threads[t].pc;
    match pc
    case CreateAlloc(id) =>
      if c.Other? {
        AtDrops(s, t, LeaveSessions);
      } else {
        AllocKeeps(s, t, id);
      }
    case CreatePublish(id, p) => PublishKeeps(s, t, id, p, c);
    case EvictAt(_, _, _, _) => EvictAtKeeps(s, t, c);
    case EvictTried(_, _, _, _, _) => EvictTriedKeeps(s, t, c);
    case ReplaceScan(_) => ReplaceScanKeeps(s, t, c);
    case CreateStart(id) => CreateStartKeeps(s, t, c);
    case CreateDone(p) => AtDrops(s, t, Using(p, false));
    case CreateWant(id) => AtTakes(s, t, SessionsLock, CreateStart(id));
    case ReplaceLock(id, i, p) => AtTakes(s, t, SessionLock(p), Remove(i, p, AfterReplace(id)));
    case CreateLock(p) => AtTakes(s, t, SessionLock(p), CreateDone(p));
    case _ =>
  }

  lemma CreateStartKeeps(s: State, t: Tid, c: Choice)
    requires Inv(s) && t in s.threads && s.threads[t].call == NoCall && s.threads[t].pc.CreateStart?
    ensures Inv(CreateStep(s, t, s.threads[t].pc, c).value)
  {
    hide TableOk, LiveOk, NoLeak, Free, Exclusive;
    AtDrops(s, t, CreateStep(s, t, s.threads[t].pc, c).value.threads[t].pc);
  }

  /** Nothing the threads know depends on the engine. */
  lemma EngineAside(w: World, e: bool, pc: Pc)
    ensures TableOk(w.(engine := e)) == TableOk(w) && LiveOk(w.(engine := e)) == LiveOk(w)
    ensures PcOk(w, pc) ==> PcOk(w.(engine := e), pc)
  {
  }

  lemma EngineKeeps(s: State, t: Tid, e: bool, pc: Pc)
    requires Inv(s) && t in s.threads && s.threads[t].call == NoCall
    requires PcHeld(pc) <= PcHeld(s.threads[t].pc) && PcOk(s.w, pc)
    requires forall p :: !Owns(s.threads[t].pc, p)
    ensures Inv(With(s, t, s.w.(engine := e), pc))
  {
    hide PcOk, TableOk, LiveOk, PcHeld, Owns;
    var w := s.w.(engine := e);
    EngineAside(s.w, e, pc);
    forall u | u in s.threads && u != t
      ensures PcOk(w, s.threads[u].pc)
    {
      EngineAside(s.w, e, s.threads[u].pc);
    }
    WorldMoved(s, t, w, pc);
  }

  lemma ReapKeeps(s: State, t: Tid, c: Choice)
    requires Inv(s) && t in s.threads && s.threads[t].call == NoCall && OtherStep(s, t, s.threads[t].pc, c).Some?
    requires s.threads[t].pc.ReapWant? || s.threads[t].pc.ReapAt? || s.threads[t].pc.ReapTried?
    ensures Inv(OtherStep(s, t, s.threads[t].pc, c).value)
  {
    hide TableOk, LiveOk, NoLeak, Free, Exclusive;
    var pc := s.threads[t].pc;
    var pc' := OtherStep(s, t, pc, c).value.threads[t].pc;
    if pc.ReapWant? {
      AtTakes(s, t, SessionsLock, pc');
    } else if pc.ReapAt? && pc'.ReapTried? {
      AtTakes(s, t, SessionLock(pc'.p), pc');
    } else {
      AtDrops(s, t, pc');
    }
  }

  lemma LoadEngineKeeps(s: State, t: Tid, c: Choice)
    requires Inv(s) && t in s.threads && s.threads[t].call == NoCall
    requires s.threads[t].pc.LoadOpen? || s.threads[t].pc.LoadLoop?
    ensures Inv(OtherStep(s, t, s.threads[t].pc, c).value)
  {
    hide TableOk, LiveOk, NoLeak, Free, Exclusive;
    if s.threads[t].pc.LoadOpen? {
      EngineKeeps(s, t, !c.Other?, Idle);
    } else if s.w.engine && |s.w.table| > 0 {
      AtDrops(s, t, LoadLock(s.w.table[0]));
    } else {
      EngineKeeps(s, t, false, LoadOpen);
    }
  }

  lemma LoadKeeps(s: State, t: Tid, c: Choice)
    requires Inv(s) && t in s.threads && s.threads[t].call == NoCall && OtherStep(s, t, s.threads[t].pc, c).Some?
    requires var pc := s.threads[t].pc; pc.LoadWant? || pc.LoadWantSessions? || pc.LoadLock?
    ensures Inv(OtherStep(s, t, s.threads[t].pc, c).value)
  {
    hide TableOk, LiveOk, NoLeak, Free, Exclusive;
    match s.threads[t].pc
    case LoadWant => AtTakes(s, t, EngineLock, LoadWantSessions);
    case LoadWantSessions => AtTakes(s, t, SessionsLock, LoadLoop);
    case LoadLock(p) => AtTakes(s, t, SessionLock(p), Remove(0, p, AfterLoad));
  }

  lemma HealthKeeps(s: State, t: Tid, c: Choice)
    requires Inv(s) && t in s.threads && s.threads[t].call == NoCall && OtherStep(s, t, s.threads[t].pc, c).Some?
    requires var pc := s.threads[t].pc; pc.HealthWant? || pc.HealthHave? || pc.HealthWantEngine? || pc.HealthHaveEngine?
    ensures Inv(OtherStep(s, t, s.threads[t].pc, c).value)
  {
    hide TableOk, LiveOk, NoLeak, Free, Exclusive;
    match s.threads[t].pc
    case HealthWant => AtTakes(s, t, SessionsLock, HealthHave);
    case HealthHave => AtDrops(s, t, HealthWantEngine);
    case HealthWantEngine => AtTakes(s, t, EngineLock, HealthHaveEngine);
    case HealthHaveEngine => AtDrops(s, t, Idle);
  }

  lemma OtherStepKeeps(s: State, t: Tid, c: Choice)
    requires Inv(s) && t in s.threads && s.threads[t].call == NoCall && OtherStep(s, t, s.threads[t].pc, c).Some?
    ensures Inv(OtherStep(s, t, s.threads[t].pc, c).value)
  {
    var pc := s.threads[t].pc;
    hide Inv;
    match pc
    case ReapWant => ReapKeeps(s, t, c);
    case ReapAt(_, _) => ReapKeeps(s, t, c);
    case ReapTried(_, _, _) => ReapKeeps(s, t, c);
    case LoadOpen => LoadEngineKeeps(s, t, c);
    case LoadLoop => LoadEngineKeeps(s, t, c);
    case LoadWant => LoadKeeps(s, t, c);
    case LoadWantSessions => LoadKeeps(s, t, c);
    case LoadLock(_) => LoadKeeps(s, t, c);
    case _ => HealthKeeps(s, t, c);
  }

  // ----- last use -----

  /** Using a session renews its time of last use; no other thread relies on the old one. */
  lemma TouchKnows(w: World, p: Ptr, pc: Pc)
    requires TableOk(w) && LiveOk(w) && p in w.table && PcOk(w, pc)
    requires SessionLock(p) !in PcHeld(pc)
    ensures PcOk(w.(lastActive := w.lastActive[p := w.now]), pc)
  {
  }

  lemma TouchKeeps(s: State, t: Tid, p: Ptr, eng: bool)
    requires Inv(s) && t in s.threads && s.threads[t] == Thread(Using(p, eng), NoCall)
    ensures Inv(With(s, t, s.w.(lastActive := s.w.lastActive[p := s.w.now]), Using(p, eng)))
  {
    hide PcOk, TableOk, LiveOk, NoLeak;
    var w := s.w.(lastActive := s.w.lastActive[p := s.w.now]);
    UsingInTable(s.w, Using(p, eng));
    TouchedWorld(s.w, p, eng);
    forall u | u in s.threads && u != t
      ensures PcOk(w, s.threads[u].pc)
    {
      assert Held(s.threads[t]) !! Held(s.threads[u]);
      assert SessionLock(p) in Held(s.threads[t]);
      TouchKnows(s.w, p, s.threads[u].pc);
    }
    WorldMoved(s, t, w, Using(p, eng));
  }

  lemma TouchedWorld(w: World, p: Ptr, eng: bool)
    requires TableOk(w) && LiveOk(w) && p in w.table
    ensures var w' := w.(lastActive := w.lastActive[p := w.now]);
            TableOk(w') && LiveOk(w') && PcOk(w', Using(p, eng))
  {
  }

  lemma TickKnows(w: World, pc: Pc)
    requires PcOk(w, pc)
    ensures PcOk(w.(now := w.now + 1), pc)
  {
  }

  lemma TickKeeps(s: State)
    requires Inv(s)
    ensures Inv(s.(w := s.w.(now := s.w.now + 1)))
  {
    hide PcOk;
    forall t | t in s.threads
      ensures PcOk(s.w.(now := s.w.now + 1), s.threads[t].pc)
    {
      TickKnows(s.w, s.threads[t].pc);
    }
  }

  // ----- every step, every run -----

  lemma StepKeeps(s: State, t: Tid, c: Choice)
    requires Inv(s) && t in s.threads && Step(s, t, c).Some?
    ensures Inv(Step(s, t, c).value)
  {
    hide Inv, CallStep, FindStep, RemoveStep, CreateStep, OtherStep, MayCall;
    var pc := s.threads[t].pc;
    if s.threads[t].call != NoCall {
      CallKeeps(s, t, c);
    } else if c.BeginCall? {
      BeginKeeps(s, t, c.wakeOnly);
    } else if c.Start? {
      StartKeeps(s, t, c.request);
    } else if FindStep(s, t, pc, c).Some? {
      if pc.Using? && c.Other? {
        FindStepTouches(s, t, pc.p, pc.eng);
        TouchKeeps(s, t, pc.p, pc.eng);
      } else {
        FindKeeps(s, t, c);
      }
    } else if RemoveStep(s, t, pc).Some? {
      RemoveStepKeeps(s, t);
    } else if CreateStep(s, t, pc, c).Some? {
      CreateStepKeeps(s, t, c);
    } else {
      OtherStepKeeps(s, t, c);
    }
  }

  lemma FindStepTouches(s: State, t: Tid, p: Ptr, eng: bool)
    ensures FindStep(s, t, Using(p, eng), Other) ==
            Some(With(s, t, s.w.(lastActive := s.w.lastActive[p := s.w.now]), Using(p, eng)))
  {
  }

  lemma StartKeeps(s: State, t: Tid, request: Pc)
    requires Inv(s) && t in s.threads && s.threads[t] == Thread(Idle, NoCall) && IsRequest(request)
    ensures Inv(At(s, t, request))
  {
    hide TableOk, LiveOk, NoLeak, Free, Exclusive;
    AtDrops(s, t, request);
  }

  lemma NextKeeps(s: State, s': State)
    requires Inv(s) && Next(s, s')
    ensures Inv(s')
  {
    hide Inv, Step;
    if s' == s.(w := s.w.(now := s.w.now + 1)) {
      TickKeeps(s);
    } else {
      var t, c :| t in s.threads && Step(s, t, c) == Some(s');
      StepKeeps(s, t, c);
    }
  }

  /** A run: from an initial state, one step at a time. */
  ghost predicate Run(states: seq<State>) {
    states != [] && Init(states[0]) && forall i :: 0 <= i < |states| - 1 ==> Next(states[i], states[i+1])
  }

  lemma {:induction false} RunKeeps(states: seq<State>, i: nat)
    requires Run(states) && i < |states|
    ensures Inv(states[i])
  {
    hide Inv, Init, Next;
    if i == 0 {
      InitInv(states[0]);
    } else {
      RunKeeps(states, i - 1);
      NextKeeps(states[i-1], states[i]);
    }
  }

  // ----- sessions live as long as they are used -----

  /** A thread blocked on a session's mutex holds sessions_mutex, and finds the session alive
      and in the table; so does a thread that holds it, unless it is removing it. */
  lemma HolderKnows(w: World, th: Thread, p: Ptr)
    requires TableOk(w) && PcOk(w, th.pc) && CallOk(th)
    ensures Wants(th) == Some(SessionLock(p)) ==> SessionsLock in Held(th) && p in w.table
    ensures SessionLock(p) in Held(th) ==> p in w.table || (SessionsLock in Held(th) && th.pc.Removing? && th.pc.p == p)
    ensures SessionLock(p) in Held(th) && th.pc.Removing? && th.pc.p == p ==> p in w.live && p !in w.table
  {
  }

  /** In every state of every run: a thread waiting on a session mutex holds sessions_mutex; a
      session whose mutex is held or awaited has not been freed; and when a thread is about to
      destroy a session, no other thread holds or awaits its mutex. */
  lemma LifetimeSafety(states: seq<State>, i: nat, t: Tid, p: Ptr)
    requires Run(states) && i < |states| && t in states[i].threads
    ensures var s, th := states[i], states[i].threads[t];
            && (Wants(th) == Some(SessionLock(p)) ==> SessionsLock in Held(th) && p in s.w.live)
            && (SessionLock(p) in Held(th) ==> p in s.w.live)
            && (th.pc.Unlocked? && th.pc.p == p ==>
                  p in s.w.live && p !in s.w.table
                  && forall u :: u in s.threads ==>
                       Wants(s.threads[u]) != Some(SessionLock(p)) && SessionLock(p) !in Held(s.threads[u]))
  {
    RunKeeps(states, i);
    var s, th := states[i], states[i].threads[t];
    hide Run, Held, PcOk, CallOk, LiveOk, NoLeak;
    HolderKnows(s.w, th, p);
    if th.pc.Unlocked? && th.pc.p == p {
      UnlockedKnows(s.w, th);
      forall u | u in s.threads
        ensures Wants(s.threads[u]) != Some(SessionLock(p)) && SessionLock(p) !in Held(s.threads[u])
      {
        HolderKnows(s.w, s.threads[u], p);
      }
    }
  }

  lemma UnlockedKnows(w: World, th: Thread)
    requires PcOk(w, th.pc) && th.pc.Unlocked?
    ensures th.pc.p in w.live && th.pc.p !in w.table && SessionsLock in Held(th)
  {
  }

  /** In every state of every run: the table's sessions are distinct and alive, no two have one
      id, a limit is kept, and every other live session has a thread about to free or publish it. */
  lemma TableSafety(states: seq<State>, i: nat)
    requires Run(states) && i < |states|
    ensures var w := states[i].w;
            && (forall a, b :: 0 <= a < b < |w.table| ==>
                  w.table[a] in w.ids && w.table[b] in w.ids && w.ids[w.table[a]] != w.ids[w.table[b]])
            && (w.maxSessions > 0 ==> |w.table| <= w.maxSessions)
            && (forall p :: p in w.table ==> p in w.live)
            && (forall p :: p in w.live && p !in w.table ==>
                  exists t :: t in states[i].threads && Owns(states[i].threads[t].pc, p))
  {
    hide Run, Held, PcOk, CallOk;
    RunKeeps(states, i);
    var w := states[i].w;
    forall a | 0 <= a < |w.table|
      ensures w.table[a] in w.ids
    {
      assert w.table[a] in w.live;
    }
  }

  /** A session is evicted only when locked, so in use by no one, and only if none of the
      sessions the scan could lock has been idle for longer. */
  lemma EvictsOldest(s: State, t: Tid, c: Choice)
    requires Inv(s) && t in s.threads && s.threads[t].call == NoCall && s.threads[t].pc.EvictAt?
    requires Step(s, t, c).Some? && Step(s, t, c).value.threads[t].pc.Remove?
    ensures var pc, pc' := s.threads[t].pc, Step(s, t, c).value.threads[t].pc;
            && pc.i == |s.w.table| && SessionLock(pc'.p) in Held(s.threads[t])
            && forall q :: q in pc.tried ==>
                 q in s.w.lastActive && pc'.p in s.w.lastActive && s.w.lastActive[pc'.p] <= s.w.lastActive[q]
  {
    hide Exclusive, TableOk, LiveOk, NoLeak;
  }

  /** A session the reaper removes has been idle for longer than the timeout, even now. */
  lemma ReapsOnlyExpired(s: State, t: Tid)
    requires Inv(s) && t in s.threads
    requires var pc := s.threads[t].pc; (pc.Remove? || pc.Removing? || pc.Unlocked?) && pc.cont.AfterReap?
    ensures var p := s.threads[t].pc.p;
            p in s.w.lastActive && s.w.now - s.w.lastActive[p] > s.w.timeout
  {
  }

  // ----- no deadlock -----

  /** The order in which locks are taken. */
  function Rank(l: Lock): (r: nat)
    ensures r <= 4
  {
    match l
    case EngineLock => 0
    case SessionsLock => 1
    case SessionLock(_) => 2
    case MmapLock => 3
    case WakeLock => 4
  }

  /** Every blocking acquire is of strictly higher rank than all locks held. */
  lemma WantsAbove(th: Thread, l: Lock, held: Lock)
    requires CallOk(th) && Wants(th) == Some(l) && held in Held(th)
    ensures Rank(held) < Rank(l)
  {
  }

  /** Thread t is blocked on a lock that u holds. */
  predicate WaitsFor(s: State, t: Tid, u: Tid) {
    && t in s.threads && u in s.threads
    && Wants(s.threads[t]).Some? && Wants(s.threads[t]).value in Held(s.threads[u])
  }

  /** Along waiting threads the rank of the awaited lock rises. */
  lemma {:induction false} ChainRises(s: State, chain: seq<Tid>)
    requires forall t :: t in s.threads ==> CallOk(s.threads[t])
    requires |chain| > 1 && forall i :: 0 <= i < |chain| - 1 ==> WaitsFor(s, chain[i], chain[i+1])
    ensures chain[0] in s.threads && Wants(s.threads[chain[0]]).Some? && chain[|chain|-1] in s.threads
    ensures var first, last := s.threads[chain[0]], s.threads[chain[|chain|-1]];
            Wants(last).Some? ==> Rank(Wants(first).value) < Rank(Wants(last).value)
  {
    hide Held, CallOk, Wants, Rank;
    var n := |chain|;
    assert WaitsFor(s, chain[n-2], chain[n-1]) && WaitsFor(s, chain[0], chain[1]);
    var last := s.threads[chain[n-1]];
    if Wants(last).Some? {
      WantsAbove(last, Wants(last).value, Wants(s.threads[chain[n-2]]).value);
      if n > 2 {
        ChainRises(s, chain[..n-1]);
      }
    }
  }

  /** No state of any run has a cycle of threads each waiting for the next. */
  lemma NoWaitCycle(states: seq<State>, i: nat, cycle: seq<Tid>)
    requires Run(states) && i < |states| && cycle != []
    ensures !(WaitsFor(states[i], cycle[|cycle|-1], cycle[0])
              && forall k :: 0 <= k < |cycle| - 1 ==> WaitsFor(states[i], cycle[k], cycle[k+1]))
  {
    hide Run, Held, CallOk, Wants, Rank;
    RunKeeps(states, i);
    CallsOk(states[i]);
    hide Inv;
    if WaitsFor(states[i], cycle[|cycle|-1], cycle[0])
       && forall k :: 0 <= k < |cycle| - 1 ==> WaitsFor(states[i], cycle[k], cycle[k+1]) {
      var chain := cycle + [cycle[0]];
      forall k | 0 <= k < |chain| - 1
        ensures WaitsFor(states[i], chain[k], chain[k+1])
      {
        if k < |cycle| - 1 {
          assert WaitsFor(states[i], cycle[k], cycle[k+1]);
        }
      }
      ChainRises(states[i], chain);
      assert false;
    }
  }

  lemma CallsOk(s: State)
    requires Inv(s)
    ensures forall t :: t in s.threads ==> CallOk(s.threads[t])
  {
  }

  ghost predicate Runnable(s: State, t: Tid)
    requires t in s.threads
  {
    Wants(s.threads[t]).None? || Free(s, Wants(s.threads[t]).value)
  }

  /** Behind every blocked thread stands one that can run. */
  lemma {:induction false} SomeoneRuns(s: State, t: Tid) returns (chain: seq<Tid>)
    requires t in s.threads && forall u :: u in s.threads ==> CallOk(s.threads[u])
    ensures chain != [] && chain[0] == t && chain[|chain|-1] in s.threads && Runnable(s, chain[|chain|-1])
    ensures forall i :: 0 <= i < |chain| - 1 ==> WaitsFor(s, chain[i], chain[i+1])
    decreases if Wants(s.threads[t]).Some? then 5 - Rank(Wants(s.threads[t]).value) else 0
  {
    if Runnable(s, t) {
      chain := [t];
    } else {
      var u :| u in s.threads && Wants(s.threads[t]).value in Held(s.threads[u]);
      if Wants(s.threads[u]).Some? {
        WantsAbove(s.threads[u], Wants(s.threads[u]).value, Wants(s.threads[t]).value);
      }
      var rest := SomeoneRuns(s, u);
      chain := [t] + rest;
      assert WaitsFor(s, t, u);
    }
  }

  ghost predicate CanStep(s: State, t: Tid)
    requires t in s.threads
  {
    exists c :: Step(s, t, c).Some?
  }

  /** A thread that is not blocked can take a step. */
  lemma RunnableSteps(s: State, t: Tid)
    requires Inv(s) && t in s.threads && Runnable(s, t)
    ensures CanStep(s, t)
  {
    var th := s.threads[t];
    if th.call == NoCall && th.pc.Idle? {
      assert Step(s, t, Start(HealthWant)).Some?;
    } else {
      GoSteps(s, t);
    }
  }

  lemma GoSteps(s: State, t: Tid)
    requires Inv(s) && t in s.threads && Runnable(s, t)
    requires s.threads[t].call != NoCall || !s.threads[t].pc.Idle?
    ensures Step(s, t, Go).Some?
  {
    hide Exclusive, NoLeak, Held, Free;
    var th := s.threads[t];
    if th.call == NoCall && th.pc.EvictTried? {
      ScanStep(s.w, th.pc.id, th.pc.i, th.pc.p, th.pc.best, th.pc.tried);
    }
    if th.call == NoCall && th.pc.ReapTried? {
      assert s.w.table[th.pc.i] in s.w.live;
    }
  }

  /** No state of any run is stuck: from each thread, following who holds the lock it waits
      for, one comes to a thread that can step. */
  lemma NoDeadlock(states: seq<State>, i: nat, t: Tid) returns (chain: seq<Tid>)
    requires Run(states) && i < |states| && t in states[i].threads
    ensures chain != [] && chain[0] == t
            && forall k :: 0 <= k < |chain| - 1 ==> WaitsFor(states[i], chain[k], chain[k+1])
    ensures chain[|chain|-1] in states[i].threads && CanStep(states[i], chain[|chain|-1])
  {
    RunKeeps(states, i);
    CallsOk(states[i]);
    hide Inv, Run, Held, CallOk, Wants, Free, Step;
    chain := SomeoneRuns(states[i], t);
    RunnableSteps(states[i], chain[|chain|-1]);
  }
}
