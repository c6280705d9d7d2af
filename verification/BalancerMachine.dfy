/**
  The load balancer as a transition system. Any number of connection tasks select a backend, hold a guard and
  drop it; the config watcher reloads the list; health checkers flip flags. Every atomic operation of the
  source is one step, and steps of different parties interleave freely. Loads are taken as sequentially
  consistent.
*/
module BalancerMachine {
  import opened Options
  import opened Rotation
  import opened BackendConfigs

  /** A `Backend` object, named by its index in the store; objects no longer listed stay in the store. */
  type Id = nat

  datatype Backend = Backend(addr: string, active: nat, healthy: bool, drain: bool)

  /** The next operation on the backend under probe. */
  datatype Point = ReadDrain | ReadHealth | ReadCount | Increment

  /** A connection task, by what it does next. */
  datatype Task =
    | Started                                                       // load the list
    | Loaded(snap: seq<Id>)                                         // take a ticket
    | Probing(point: Point, snap: seq<Id>, ticket: nat, i: nat)     // look at probe i
    | Counted(b: Id, addr: string)                                  // bump the gauge and return
    | Holding(b: Id, addr: string)                                  // guard alive until the end
    | Released(addr: string)                                        // counter decremented, gauge not yet

  /** The config watcher, the only writer of the list. */
  datatype Reloader =
    | Idle
    | Working(snap: seq<Id>, configs: seq<BackendConfig>, built: seq<Id>)

  datatype State = State(
    store: seq<Backend>,
    list: seq<Id>,
    current: nat,
    tasks: map<nat, Task>,
    reloader: Reloader,
    gauge: map<string, int>,
    // History: no step reads these.
    known: set<Id>,                        // objects that were ever listed
    configs: seq<BackendConfig>,           // the configuration of the current list
    log: map<nat, Option<nat>>,            // what the call with a given ticket picked
    base: map<string, nat>)                // guards on an address when its gauge was last reset

  datatype Action =
    | Spawn(t: nat)
    | Advance(t: nat)
    | BeginReload(configs: seq<BackendConfig>)
    | ReloadNext
    | Publish
    | SetHealth(id: Id, healthy: bool)

  // ----- Well-formed states -------------------------------------------------------------

  predicate IdsBelow(ids: seq<Id>, n: nat) {
    forall i :: 0 <= i < |ids| ==> ids[i] < n
  }

  predicate TaskOk(k: Task, n: nat) {
    match k
    case Started => true
    case Loaded(snap) => snap != [] && IdsBelow(snap, n)
    case Probing(_, snap, ticket, i) => i < |snap| && IdsBelow(snap, n) && ticket < WORD
    case Counted(b, _) => b < n
    case Holding(b, _) => b < n
    case Released(_) => true
  }

  predicate ReloaderOk(r: Reloader, n: nat) {
    r.Working? ==> IdsBelow(r.snap, n) && IdsBelow(r.built, n) && |r.built| <= |r.configs|
  }

  predicate Ok(s: State) {
    && s.current < WORD
    && IdsBelow(s.list, |s.store|)
    && (forall id <- s.known :: id < |s.store|)
    && (forall t <- s.tasks :: TaskOk(s.tasks[t], |s.store|))
    && ReloaderOk(s.reloader, |s.store|)
  }

  /** The backend a probing task looks at. */
  function Target(k: Task): Id
    requires k.Probing? && k.snap != []
  {
    k.snap[Probe(k.ticket, k.i, |k.snap|)]
  }

  // ----- Counting tasks -----------------------------------------------------------------

  function Those(tasks: map<nat, Task>, p: Task -> bool): set<nat> {
    set t <- tasks | p(tasks[t])
  }

  function Count(tasks: map<nat, Task>, p: Task -> bool): nat {
    |Those(tasks, p)|
  }

  function One(p: bool): nat {
    if p then 1 else 0
  }

  lemma WithoutOne(s: set<nat>, t: nat)
    ensures |s| == |s - {t}| + One(t in s)
  {
  }

  lemma ThoseSet(tasks: map<nat, Task>, t: nat, k: Task, p: Task -> bool)
    ensures Those(tasks[t := k], p) - {t} == Those(tasks, p) - {t}
    ensures t in Those(tasks[t := k], p) <==> p(k)
    ensures t in Those(tasks, p) <==> t in tasks && p(tasks[t])
  {
  }

  lemma CountSet(tasks: map<nat, Task>, t: nat, k: Task, p: Task -> bool)
    ensures Count(tasks[t := k], p) + One(t in tasks && p(tasks[t])) == Count(tasks, p) + One(p(k))
    ensures t in tasks && p(tasks[t]) ==> Count(tasks, p) > 0
  {
    ThoseSet(tasks, t, k, p);
    WithoutOne(Those(tasks, p), t);
    WithoutOne(Those(tasks[t := k], p), t);
  }

  /** How a count changes when one task moves on. */
  lemma CountPut(tasks: map<nat, Task>, t: nat, k: Option<Task>, p: Task -> bool)
    ensures Count(Put(tasks, t, k), p) + One(t in tasks && p(tasks[t])) == Count(tasks, p) + One(k.Some? && p(k.value))
    ensures t in tasks && p(tasks[t]) ==> Count(tasks, p) > 0
  {
    if k.Some? {
      CountSet(tasks, t, k.value, p);
    } else {
      CountRemove(tasks, t, p);
    }
  }

  lemma CountRemove(tasks: map<nat, Task>, t: nat, p: Task -> bool)
    ensures Count(tasks - {t}, p) + One(t in tasks && p(tasks[t])) == Count(tasks, p)
  {
    var before := Those(tasks, p);
    assert Those(tasks - {t}, p) == before - {t};
    WithoutOne(before, t);
  }

  /** The guards on backend `b`: tasks that incremented its counter and have not dropped it. */
  function On(b: Id): Task -> bool {
    (k: Task) => (k.Counted? || k.Holding?) && k.b == b
  }

  /** Guards that the gauge of an address has counted and not yet discounted. */
  function Gauged(addr: string): Task -> bool {
    (k: Task) => (k.Holding? || k.Released?) && k.addr == addr
  }

  // ----- Steps of a connection task -----------------------------------------------------

  function Up(x: nat): nat { (x + 1) % WORD }

  function Down(x: nat): nat { (x + WORD - 1) % WORD }

  function GaugeOf(s: State, addr: string): int {
    if addr in s.gauge then s.gauge[addr] else 0
  }

  /** Control: go on with the next probe, or give up after the last. */
  function Skip(k: Task): (r: Option<Task>)
    requires k.Probing?
  {
    if k.i + 1 < |k.snap| then Some(k.(point := ReadDrain, i := k.i + 1)) else None
  }

  /** Control: what a task does after its next operation; `None` when it ends. */
  function After(limit: Option<nat>, s: State, k: Task): (r: Option<Task>)
    requires TaskOk(k, |s.store|)
  {
    match k
    case Started => if s.list == [] then None else Some(Loaded(s.list))
    case Loaded(snap) => Some(Probing(ReadDrain, snap, s.current, 0))
    case Probing(point, _, _, _) =>
      var b := s.store[Target(k)];
      (match point
       case ReadDrain => if b.drain then Skip(k) else Some(k.(point := ReadHealth))
       case ReadHealth =>
         if !b.healthy then Skip(k) else Some(k.(point := if limit.Some? then ReadCount else Increment))
       case ReadCount =>
         if limit.Some? && b.active >= limit.value then Skip(k) else Some(k.(point := Increment))
       case Increment => Some(Counted(Target(k), b.addr)))
    case Counted(b, addr) => Some(Holding(b, addr))
    case Holding(b, addr) => Some(Released(addr))
    case Released(addr) => None
  }

  /** A task about to increment the counter of its target. */
  predicate Increments(k: Task) {
    k.Probing? && k.point.Increment?
  }

  /** Effect on the counters. */
  function StoreAfter(store: seq<Backend>, k: Task): (r: seq<Backend>)
    requires TaskOk(k, |store|)
  {
    if Increments(k) then
      var b := Target(k);
      store[b := store[b].(active := Up(store[b].active))]
    else if k.Holding? then
      store[k.b := store[k.b].(active := Down(store[k.b].active))]
    else
      store
  }

  /** Effect on the gauges. */
  function GaugeAfter(s: State, k: Task): map<string, int> {
    if k.Counted? then s.gauge[k.addr := GaugeOf(s, k.addr) + 1]
    else if k.Released? then s.gauge[k.addr := GaugeOf(s, k.addr) - 1]
    else s.gauge
  }

  /** What gets known about the choice of a call. */
  function LogAfter(limit: Option<nat>, s: State, k: Task): map<nat, Option<nat>>
    requires TaskOk(k, |s.store|)
  {
    if Increments(k) then s.log[k.ticket := Some(Probe(k.ticket, k.i, |k.snap|))]
    else if k.Probing? && After(limit, s, k) == None then s.log[k.ticket := None]
    else s.log
  }

  function Put(tasks: map<nat, Task>, t: nat, k: Option<Task>): map<nat, Task> {
    if k.Some? then tasks[t := k.value] else tasks - {t}
  }

  function TaskStep(limit: Option<nat>, s: State, t: nat): State
    requires Ok(s) && t in s.tasks
  {
    var k := s.tasks[t];
    s.(tasks := Put(s.tasks, t, After(limit, s, k)),
       store := StoreAfter(s.store, k),
       current := if k.Loaded? then Up(s.current) else s.current,
       gauge := GaugeAfter(s, k),
       log := LogAfter(limit, s, k))
  }

  // ----- Steps of the config watcher ----------------------------------------------------

  /** The first listed object with the address. */
  function Find(store: seq<Backend>, ids: seq<Id>, addr: string): Option<Id>
    requires IdsBelow(ids, |store|)
  {
    if ids == [] then None
    else if store[ids[0]].addr == addr then Some(ids[0])
    else Find(store, ids[1..], addr)
  }

  /** One configuration entry: keep the object of a known address and store its drain flag, or make a new object. */
  function ReloadOne(store: seq<Backend>, snap: seq<Id>, c: BackendConfig): (r: (seq<Backend>, Id))
    requires IdsBelow(snap, |store|)
    ensures r.1 < |r.0| && |store| <= |r.0|
  {
    FindBelow(store, snap, c.Addr());
    match Find(store, snap, c.Addr())
    case Some(b) => (store[b := store[b].(drain := c.Drain())], b)
    case None => (store + [Backend(c.Addr(), 0, true, c.Drain())], |store|)
  }

  lemma {:induction false} FindBelow(store: seq<Backend>, ids: seq<Id>, addr: string)
    requires IdsBelow(ids, |store|)
    ensures var r := Find(store, ids, addr);
            if r.Some? then r.value in ids && store[r.value].addr == addr
            else forall i :: 0 <= i < |ids| ==> store[ids[i]].addr != addr
  {
    if ids != [] {
      FindBelow(store, ids[1..], addr);
    }
  }

  /** What is found is the first with the address. */
  lemma {:induction false} FindFirst(store: seq<Backend>, ids: seq<Id>, addr: string) returns (i: nat)
    requires IdsBelow(ids, |store|) && Find(store, ids, addr).Some?
    ensures i < |ids| && Find(store, ids, addr) == Some(ids[i]) && store[ids[i]].addr == addr
    ensures forall j :: 0 <= j < i ==> store[ids[j]].addr != addr
  {
    if store[ids[0]].addr == addr {
      i := 0;
    } else {
      var k := FindFirst(store, ids[1..], addr);
      i := k + 1;
      forall j | 0 <= j < i ensures store[ids[j]].addr != addr {
        if j > 0 {
          assert ids[j] == ids[1..][j - 1];
        }
      }
    }
  }

  function ReloadStep(s: State): State
    requires Ok(s) && s.reloader.Working? && |s.reloader.built| < |s.reloader.configs|
  {
    var r := s.reloader;
    var c := r.configs[|r.built|];
    var (store, id) := ReloadOne(s.store, r.snap, c);
    var s' := s.(store := store, reloader := r.(built := r.built + [id]));
    if Find(s.store, r.snap, c.Addr()).Some? then
      s'
    else
      s'.(gauge := s.gauge[c.Addr() := 0], base := s.base[c.Addr() := Count(s.tasks, Gauged(c.Addr()))])
  }

  // ----- The machine --------------------------------------------------------------------

  function UpTo(n: nat): seq<Id> {
    seq(n, i => i)
  }

  /** `LoadBalancer::new`: one object per entry. */
  function Init(configs: seq<BackendConfig>): State {
    State(
      seq(|configs|, i requires 0 <= i < |configs| => Backend(configs[i].Addr(), 0, true, configs[i].Drain())),
      UpTo(|configs|),
      0, map[], Idle,
      map c <- configs :: c.Addr() := 0,
      set id <- UpTo(|configs|) :: id,
      configs, map[],
      map c <- configs :: c.Addr() := 0)
  }

  predicate Enabled(s: State, a: Action) {
    match a
    case Spawn(t) => t !in s.tasks
    case Advance(t) => t in s.tasks
    case BeginReload(_) => s.reloader.Idle?
    case ReloadNext => s.reloader.Working? && |s.reloader.built| < |s.reloader.configs|
    case Publish => s.reloader.Working? && |s.reloader.built| == |s.reloader.configs|
    case SetHealth(id, _) => id in s.known
  }

  function Next(limit: Option<nat>, s: State, a: Action): State
    requires Ok(s) && Enabled(s, a)
  {
    match a
    case Spawn(t) => s.(tasks := s.tasks[t := Started])
    case Advance(t) => TaskStep(limit, s, t)
    case BeginReload(configs) => s.(reloader := Working(s.list, configs, []))
    case ReloadNext => ReloadStep(s)
    case Publish =>
      s.(list := s.reloader.built, configs := s.reloader.configs, reloader := Idle,
         known := s.known + (set id <- s.reloader.built))
    case SetHealth(id, healthy) => s.(store := s.store[id := s.store[id].(healthy := healthy)])
  }

  /** An attempted action; one that is not enabled has no effect. */
  function Do(limit: Option<nat>, s: State, a: Action): (s': State)
    requires Ok(s)
    ensures Ok(s')
  {
    if Enabled(s, a) then
      NextOk(limit, s, a);
      Next(limit, s, a)
    else
      s
  }

  function Exec(limit: Option<nat>, s: State, acts: seq<Action>): (s': State)
    requires Ok(s)
    ensures Ok(s')
    decreases |acts|
  {
    if acts == [] then s else Exec(limit, Do(limit, s, acts[0]), acts[1..])
  }

  lemma ExecCons(limit: Option<nat>, s: State, a: Action, rest: seq<Action>)
    requires Ok(s)
    ensures Exec(limit, s, [a] + rest) == Exec(limit, Do(limit, s, a), rest)
  {
    assert ([a] + rest)[1..] == rest;
  }

  lemma {:induction false} ExecSnoc(limit: Option<nat>, s: State, acts: seq<Action>, a: Action)
    requires Ok(s)
    ensures Exec(limit, s, acts + [a]) == Do(limit, Exec(limit, s, acts), a)
    decreases |acts|
  {
    if acts == [] {
      ExecCons(limit, s, a, []);
      assert acts + [a] == [a] + [];
    } else {
      ExecSnoc(limit, Do(limit, s, acts[0]), acts[1..], a);
      ExecCons(limit, s, acts[0], acts[1..] + [a]);
      assert acts + [a] == [acts[0]] + (acts[1..] + [a]);
    }
  }

  lemma {:induction false} ExecAppend(limit: Option<nat>, s: State, acts: seq<Action>, more: seq<Action>)
    requires Ok(s)
    ensures Exec(limit, s, acts + more) == Exec(limit, Exec(limit, s, acts), more)
    decreases |more|
  {
    if more == [] {
      assert acts + more == acts;
    } else {
      ExecAppend(limit, s, acts + [more[0]], more[1..]);
      ExecSnoc(limit, s, acts, more[0]);
      assert acts + more == acts + [more[0]] + more[1..];
    }
  }

  lemma AfterOk(limit: Option<nat>, s: State, k: Task)
    requires Ok(s) && TaskOk(k, |s.store|)
    ensures After(limit, s, k).Some? ==> TaskOk(After(limit, s, k).value, |s.store|)
  {
  }

  lemma TaskStepOk(limit: Option<nat>, s: State, t: nat)
    requires Ok(s) && t in s.tasks
    ensures Ok(TaskStep(limit, s, t))
  {
    AfterOk(limit, s, s.tasks[t]);
  }

  lemma ReloadStepOk(s: State)
    requires Ok(s) && Enabled(s, ReloadNext)
    ensures Ok(ReloadStep(s))
  {
  }

  lemma NextOk(limit: Option<nat>, s: State, a: Action)
    requires Ok(s) && Enabled(s, a)
    ensures Ok(Next(limit, s, a))
  {
    match a
    case Advance(t) => TaskStepOk(limit, s, t);
    case ReloadNext => ReloadStepOk(s);
    case _ =>
  }

  lemma InitOk(configs: seq<BackendConfig>)
    ensures Ok(Init(configs))
  {
  }
}
