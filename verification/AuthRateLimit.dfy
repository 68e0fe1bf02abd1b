/**
  The authentication attempt limiter for one key: a counter created with a fixed lifetime, incremented by
  later attempts, in a shared cache with a process-local fallback.  Every cache operation is one atomic
  step; any number of attempts interleave, the counter may expire between two operations of one attempt,
  and the shared cache may fail at any operation, with or without having applied it.
 */
module AuthRateLimit {
  import opened Options

  datatype Counter = Counter(count: int, expiresAt: real)

  datatype Policy = Policy(limit: int, window: real) {
    predicate Valid() { window > 0.0 }
    /** The first attempt of a lifetime passes whatever the limit. */
    function Cap(): nat { if limit < 1 then 1 else limit }
  }

  predicate Live(cell: Option<Counter>, now: real) {
    cell.Some? && now < cell.value.expiresAt
  }

  /** `cache.add`: create the counter unless a live one exists. */
  function Added(p: Policy, cell: Option<Counter>, now: real): Option<Counter> {
    if Live(cell, now) then cell else Some(Counter(1, now + p.window))
  }

  /** `cache.incr`: count up a live counter, keeping its expiry. */
  function Incremented(cell: Option<Counter>, now: real): Option<Counter> {
    if Live(cell, now) then Some(cell.value.(count := cell.value.count + 1)) else cell
  }

  // ----- One attempt, alone -----

  class CounterCache {
    var counters: map<string, Counter>

    function Cell(key: string): Option<Counter>
      reads this
    {
      if key in counters then Some(counters[key]) else None
    }

    method Add(p: Policy, key: string, now: real) returns (created: bool)
      modifies this
      ensures created == !Live(old(Cell(key)), now)
      ensures Cell(key) == Added(p, old(Cell(key)), now)
    {
      created := !Live(Cell(key), now);
      if created {
        counters := counters[key := Counter(1, now + p.window)];
      }
    }

    /** `None` stands for the error raised when the counter is gone. */
    method Incr(key: string, now: real) returns (count: Option<int>)
      modifies this
      ensures count == if Live(old(Cell(key)), now) then Some(old(Cell(key)).value.count + 1) else None
      ensures Cell(key) == Incremented(old(Cell(key)), now)
    {
      if !Live(Cell(key), now) {
        return None;
      }
      counters := counters[key := counters[key].(count := counters[key].count + 1)];
      count := Some(counters[key].count);
    }
  }

  /** The four operations an attempt may issue, at the given times; the result is `None` if the last one raises. */
  method AttemptOn(p: Policy, cache: CounterCache, key: string, t0: real, t1: real, t2: real, t3: real)
    returns (allowed: Option<bool>)
    modifies cache
    ensures var (b, pc) := Alone(p, old(cache.Cell(key)), t0, t1, t2, t3);
      cache.Cell(key) == b.cell && allowed == if pc.Done? then Some(pc.allowed) else None
  {
    var created := cache.Add(p, key, t0);
    if created {
      return Some(true);
    }
    var attempts := cache.Incr(key, t1);
    if attempts.None? {
      created := cache.Add(p, key, t2);
      if created {
        return Some(true);
      }
      attempts := cache.Incr(key, t3);
      if attempts.None? {
        return None;
      }
    }
    return Some(attempts.value <= p.limit);
  }

  // ----- Any number of attempts, interleaved -----

  /** An attempt that passed, in which lifetime of the counter. */
  datatype Pass = Pass(time: real, life: nat)

  /** A cache for the key: its cell, the moments at which lifetimes began, and the attempts it let through. */
  datatype Backend = Backend(cell: Option<Counter>, starts: seq<real>, passes: seq<Pass>)

  datatype Pc =
    | AtAdd(local: bool)
    | AtIncr(local: bool)
    | AtAddAgain(local: bool)
    | AtIncrAgain(local: bool)
    | Done(allowed: bool)

  datatype Fault = Fine | Lost | Applied

  datatype System = System(shared: Backend, fallback: Backend, pcs: map<nat, Pc>, now: real)

  datatype Op = Arrive(id: nat) | Perform(id: nat, time: real, fault: Fault)

  function Empty(): Backend {
    Backend(None, [], [])
  }

  function Idle(): System {
    System(Empty(), Empty(), map[], 0.0)
  }

  function DoAdd(p: Policy, b: Backend, now: real, fault: Fault): Backend {
    if Live(b.cell, now) || fault == Lost then b
    else Backend(Added(p, b.cell, now), b.starts + [now],
                 if fault == Fine then b.passes + [Pass(now, |b.starts|)] else b.passes)
  }

  function DoIncr(p: Policy, b: Backend, now: real, fault: Fault): Backend {
    if !Live(b.cell, now) || fault == Lost then b
    else b.(cell := Incremented(b.cell, now),
            passes := if fault == Fine && b.cell.value.count + 1 <= p.limit && b.starts != []
                      then b.passes + [Pass(now, |b.starts| - 1)] else b.passes)
  }

  /** Where an attempt goes when an operation raises: to the fallback, and from there to a refusal. */
  function Raised(local: bool): Pc {
    if local then Done(false) else AtAdd(true)
  }

  /** One operation of an attempt on the backend it is using. */
  function Advance(p: Policy, b: Backend, pc: Pc, now: real, fault: Fault): (Backend, Pc) {
    match pc
    case AtAdd(local) =>
      (DoAdd(p, b, now, fault),
       if fault != Fine then Raised(local) else if Live(b.cell, now) then AtIncr(local) else Done(true))
    case AtIncr(local) =>
      (DoIncr(p, b, now, fault),
       if fault != Fine then Raised(local)
       else if Live(b.cell, now) then Done(b.cell.value.count + 1 <= p.limit) else AtAddAgain(local))
    case AtAddAgain(local) =>
      (DoAdd(p, b, now, fault),
       if fault != Fine then Raised(local) else if Live(b.cell, now) then AtIncrAgain(local) else Done(true))
    case AtIncrAgain(local) =>
      (DoIncr(p, b, now, fault),
       if fault != Fine then Raised(local)
       else if Live(b.cell, now) then Done(b.cell.value.count + 1 <= p.limit) else Raised(local))
    case Done(_) => (b, pc)
  }

  function Step(p: Policy, s: System, op: Op): System {
    match op
    case Arrive(id) => if id in s.pcs then s else s.(pcs := s.pcs[id := AtAdd(false)])
    case Perform(id, time, fault) =>
      if id !in s.pcs || s.pcs[id].Done? || time < s.now then s
      else if s.pcs[id].local then
        var (b, pc) := Advance(p, s.fallback, s.pcs[id], time, fault);
        s.(fallback := b, pcs := s.pcs[id := pc], now := time)
      else
        var (b, pc) := Advance(p, s.shared, s.pcs[id], time, fault);
        s.(shared := b, pcs := s.pcs[id := pc], now := time)
  }

  function Run(p: Policy, s: System, ops: seq<Op>): System
    decreases |ops|
  {
    if ops == [] then s else Run(p, Step(p, s, ops[0]), ops[1..])
  }

  /** Four operations of one attempt with no other attempt in between. */
  function Alone(p: Policy, cell: Option<Counter>, t0: real, t1: real, t2: real, t3: real): (Backend, Pc) {
    var (b0, pc0) := Advance(p, Backend(cell, [], []), AtAdd(false), t0, Fine);
    var (b1, pc1) := Advance(p, b0, pc0, t1, Fine);
    var (b2, pc2) := Advance(p, b1, pc1, t2, Fine);
    Advance(p, b2, pc2, t3, Fine)
  }

  // ----- The invariant of a backend -----

  function InLife(passes: seq<Pass>, life: nat): nat {
    if passes == [] then 0
    else InLife(passes[..|passes| - 1], life) + if passes[|passes| - 1].life == life then 1 else 0
  }

  function InTime(passes: seq<Pass>, from: real, to: real): nat {
    if passes == [] then 0
    else InTime(passes[..|passes| - 1], from, to) + if from <= passes[|passes| - 1].time < to then 1 else 0
  }

  /** Each lifetime begins when the one before has ended. */
  ghost predicate StartsOk(p: Policy, starts: seq<real>) {
    var n := |starts| - 1;
    n <= 0 || (starts[n - 1] + p.window <= starts[n] && StartsOk(p, starts[..n]))
  }

  lemma {:induction false} StartsApart(p: Policy, starts: seq<real>, i: nat, j: nat)
    requires p.Valid() && StartsOk(p, starts) && i < j < |starts|
    ensures starts[i] + p.window <= starts[j]
    decreases |starts|
  {
    var n := |starts| - 1;
    if j < n {
      StartsApart(p, starts[..n], i, j);
    } else if i < n - 1 {
      StartsApart(p, starts[..n], i, n - 1);
    }
  }

  ghost predicate PassesOk(p: Policy, b: Backend) {
    forall i :: 0 <= i < |b.passes| ==>
      b.passes[i].life < |b.starts|
      && b.starts[b.passes[i].life] <= b.passes[i].time < b.starts[b.passes[i].life] + p.window
  }

  /** The counter of the current lifetime has counted at least the attempts it let through. */
  ghost predicate CounterOk(p: Policy, b: Backend) {
    match b.cell
    case None => b.starts == [] && b.passes == []
    case Some(c) =>
      var n := |b.starts|;
      && n > 0 && c.count >= 1 && c.expiresAt == b.starts[n - 1] + p.window
      && InLife(b.passes, n - 1) <= c.count && InLife(b.passes, n - 1) <= p.Cap()
  }

  ghost predicate BackendOk(p: Policy, b: Backend) {
    && p.Valid() && StartsOk(p, b.starts) && PassesOk(p, b) && CounterOk(p, b)
    && forall life: nat :: InLife(b.passes, life) <= p.Cap()
  }

  ghost predicate NotBefore(b: Backend, now: real) {
    b.starts != [] ==> b.starts[|b.starts| - 1] <= now
  }

  lemma {:induction false} NoPassYet(passes: seq<Pass>, life: nat)
    requires forall i :: 0 <= i < |passes| ==> passes[i].life < life
    ensures InLife(passes, life) == 0
  {
    if passes != [] { NoPassYet(passes[..|passes| - 1], life); }
  }

  lemma {:induction false} OneMorePass(passes: seq<Pass>, x: Pass, cap: nat)
    requires InLife(passes, x.life) < cap && forall life: nat :: InLife(passes, life) <= cap
    ensures forall life: nat :: InLife(passes + [x], life) <= cap
    ensures InLife(passes + [x], x.life) == InLife(passes, x.life) + 1
  {
    forall life: nat ensures InLife(passes + [x], life) <= cap {
      assert InLife(passes, life) <= cap;
    }
  }

  lemma OpeningKeepsPasses(p: Policy, b: Backend, now: real, t: Backend)
    requires p.Valid() && PassesOk(p, b) && t.starts == b.starts + [now]
    requires t.passes == b.passes || t.passes == b.passes + [Pass(now, |b.starts|)]
    ensures PassesOk(p, t) && InLife(b.passes, |b.starts|) == 0
  {
    NoPassYet(b.passes, |b.starts|);
  }

  lemma {:induction false} OpeningKeepsStarts(p: Policy, starts: seq<real>, now: real)
    requires StartsOk(p, starts) && (starts != [] ==> starts[|starts| - 1] + p.window <= now)
    ensures StartsOk(p, starts + [now])
  {
    assert (starts + [now])[..|starts|] == starts;
  }

  lemma AddKeeps(p: Policy, b: Backend, now: real, fault: Fault)
    requires BackendOk(p, b) && NotBefore(b, now)
    ensures BackendOk(p, DoAdd(p, b, now, fault)) && NotBefore(DoAdd(p, b, now, fault), now)
  {
    if !Live(b.cell, now) && fault != Lost {
      OpeningKeepsPasses(p, b, now, DoAdd(p, b, now, fault));
      OpeningKeepsStarts(p, b.starts, now);
      OneMorePass(b.passes, Pass(now, |b.starts|), p.Cap());
    }
  }

  lemma IncrKeeps(p: Policy, b: Backend, now: real, fault: Fault)
    requires BackendOk(p, b) && NotBefore(b, now)
    ensures BackendOk(p, DoIncr(p, b, now, fault)) && NotBefore(DoIncr(p, b, now, fault), now)
  {
    if Live(b.cell, now) && fault == Fine && b.cell.value.count + 1 <= p.limit {
      OneMorePass(b.passes, Pass(now, |b.starts| - 1), p.Cap());
    }
  }

  ghost predicate Inv(p: Policy, s: System) {
    && BackendOk(p, s.shared) && NotBefore(s.shared, s.now)
    && BackendOk(p, s.fallback) && NotBefore(s.fallback, s.now)
  }

  lemma AdvanceKeeps(p: Policy, b: Backend, pc: Pc, now: real, fault: Fault)
    requires BackendOk(p, b) && NotBefore(b, now)
    ensures BackendOk(p, Advance(p, b, pc, now, fault).0) && NotBefore(Advance(p, b, pc, now, fault).0, now)
  {
    match pc
    case AtAdd(_) => AddKeeps(p, b, now, fault);
    case AtAddAgain(_) => AddKeeps(p, b, now, fault);
    case AtIncr(_) => IncrKeeps(p, b, now, fault);
    case AtIncrAgain(_) => IncrKeeps(p, b, now, fault);
    case Done(_) =>
  }

  lemma StepKeeps(p: Policy, s: System, op: Op)
    requires Inv(p, s)
    ensures Inv(p, Step(p, s, op))
  {
    if op.Perform? && op.id in s.pcs && !s.pcs[op.id].Done? && s.now <= op.time {
      AdvanceKeeps(p, if s.pcs[op.id].local then s.fallback else s.shared, s.pcs[op.id], op.time, op.fault);
    }
  }

  lemma {:induction false} RunKeeps(p: Policy, s: System, ops: seq<Op>)
    requires Inv(p, s)
    ensures Inv(p, Run(p, s, ops))
    decreases |ops|
  {
    if ops != [] {
      StepKeeps(p, s, ops[0]);
      RunKeeps(p, Step(p, s, ops[0]), ops[1..]);
    }
  }

  // ----- The passes are the attempts that were allowed -----

  function Allowed(s: System): set<nat> {
    set id | id in s.pcs && s.pcs[id] == Done(true)
  }

  function Passes(s: System): nat {
    |s.shared.passes| + |s.fallback.passes|
  }

  /** An operation lets an attempt through exactly when the attempt ends in being allowed. */
  lemma AdvancePasses(p: Policy, b: Backend, pc: Pc, now: real, fault: Fault)
    requires BackendOk(p, b) && !pc.Done?
    ensures |Advance(p, b, pc, now, fault).0.passes|
            == |b.passes| + if Advance(p, b, pc, now, fault).1 == Done(true) then 1 else 0
  {
  }

  lemma AllowedAfter(s: System, t: System, id: nat, pc: Pc)
    requires t.pcs == s.pcs[id := pc] && id !in Allowed(s)
    ensures |Allowed(t)| == |Allowed(s)| + if pc == Done(true) then 1 else 0
  {
    assert Allowed(t) == if pc == Done(true) then Allowed(s) + {id} else Allowed(s);
  }

  lemma StepPasses(p: Policy, s: System, op: Op)
    requires Inv(p, s) && |Allowed(s)| == Passes(s)
    ensures |Allowed(Step(p, s, op))| == Passes(Step(p, s, op))
  {
    var t := Step(p, s, op);
    if t != s {
      AllowedAfter(s, t, op.id, t.pcs[op.id]);
      if op.Perform? {
        AdvancePasses(p, if s.pcs[op.id].local then s.fallback else s.shared, s.pcs[op.id], op.time, op.fault);
      }
    }
  }

  lemma {:induction false} RunPasses(p: Policy, s: System, ops: seq<Op>)
    requires Inv(p, s) && |Allowed(s)| == Passes(s)
    ensures |Allowed(Run(p, s, ops))| == Passes(Run(p, s, ops))
    decreases |ops|
  {
    if ops != [] {
      StepPasses(p, s, ops[0]);
      StepKeeps(p, s, ops[0]);
      RunPasses(p, Step(p, s, ops[0]), ops[1..]);
    }
  }

  /** For every interleaving: as many attempts were allowed as the two backends let through. */
  lemma {:induction false} PassesAreAllowedAttempts(p: Policy, ops: seq<Op>)
    requires p.Valid()
    ensures |Allowed(Run(p, Idle(), ops))| == Passes(Run(p, Idle(), ops))
  {
    assert Allowed(Idle()) == {};
    RunPasses(p, Idle(), ops);
  }

  // ----- Intervals -----

  /** The first lifetime that had not ended by `from`. */
  lemma {:induction false} FirstOverlap(p: Policy, starts: seq<real>, from: real) returns (l: nat)
    ensures l <= |starts|
    ensures forall i :: 0 <= i < l ==> starts[i] + p.window <= from
    ensures l < |starts| ==> from < starts[l] + p.window
  {
    l := 0;
    while l < |starts| && starts[l] + p.window <= from
      invariant l <= |starts| && forall i :: 0 <= i < l ==> starts[i] + p.window <= from
    {
      l := l + 1;
    }
  }

  lemma {:induction false} TwoLives(p: Policy, b: Backend, from: real, l: nat)
    requires p.Valid() && StartsOk(p, b.starts) && PassesOk(p, b) && l <= |b.starts|
    requires forall i :: 0 <= i < l ==> b.starts[i] + p.window <= from
    requires l < |b.starts| ==> from < b.starts[l] + p.window
    ensures InTime(b.passes, from, from + p.window) <= InLife(b.passes, l) + InLife(b.passes, l + 1)
    decreases |b.passes|
  {
    if b.passes != [] {
      var n := |b.passes| - 1;
      var x := b.passes[n];
      TwoLives(p, b.(passes := b.passes[..n]), from, l);
      forall j | l + 2 <= j < |b.starts| ensures from + p.window < b.starts[j] {
        StartsApart(p, b.starts, l, l + 1);
        StartsApart(p, b.starts, l + 1, j);
      }
    }
  }

  // ----- Main results -----

  /** For every interleaving: at most `limit` attempts pass in one lifetime of a counter. */
  lemma {:induction false} LifetimeBound(p: Policy, ops: seq<Op>, life: nat)
    requires p.Valid()
    ensures var s := Run(p, Idle(), ops);
      InLife(s.shared.passes, life) <= p.Cap() && InLife(s.fallback.passes, life) <= p.Cap()
  {
    RunKeeps(p, Idle(), ops);
  }

  /** For every interleaving: at most 2 * `limit` attempts pass per backend in any interval of length `window`. */
  lemma WindowBound(p: Policy, ops: seq<Op>, from: real)
    requires p.Valid()
    ensures var s := Run(p, Idle(), ops);
      && InTime(s.shared.passes, from, from + p.window) <= 2 * p.Cap()
      && InTime(s.fallback.passes, from, from + p.window) <= 2 * p.Cap()
  {
    var s := Run(p, Idle(), ops);
    RunKeeps(p, Idle(), ops);
    var l := FirstOverlap(p, s.shared.starts, from);
    TwoLives(p, s.shared, from, l);
    var k := FirstOverlap(p, s.fallback.starts, from);
    TwoLives(p, s.fallback, from, k);
    assert InLife(s.shared.passes, l) <= p.Cap() && InLife(s.shared.passes, l + 1) <= p.Cap();
    assert InLife(s.fallback.passes, k) <= p.Cap() && InLife(s.fallback.passes, k + 1) <= p.Cap();
  }

  // ----- Without failures: who passes -----

  /** No operation fails. */
  ghost predicate Calm(ops: seq<Op>) {
    forall i :: 0 <= i < |ops| && ops[i].Perform? ==> ops[i].fault == Fine
  }

  /** The passes of the current lifetime are what the counter has counted, up to the limit. */
  ghost predicate Exact(p: Policy, b: Backend) {
    b.cell.Some? ==>
      var n := |b.starts| - 1;
      n >= 0 && InLife(b.passes, n) == if b.cell.value.count < p.Cap() then b.cell.value.count else p.Cap()
  }

  lemma CalmAdd(p: Policy, b: Backend, now: real, t: Backend)
    requires BackendOk(p, b) && Exact(p, b) && t == DoAdd(p, b, now, Fine)
    ensures Exact(p, t)
  {
    if !Live(b.cell, now) {
      var n := |b.starts|;
      NoPassYet(b.passes, n);
      OneMorePass(b.passes, Pass(now, n), p.Cap());
    }
  }

  lemma CalmIncr(p: Policy, b: Backend, now: real, t: Backend)
    requires BackendOk(p, b) && Exact(p, b) && t == DoIncr(p, b, now, Fine)
    ensures Exact(p, t)
  {
    if Live(b.cell, now) && b.cell.value.count + 1 <= p.limit {
      OneMorePass(b.passes, Pass(now, |b.starts| - 1), p.Cap());
    }
  }

  lemma CalmAdvance(p: Policy, b: Backend, pc: Pc, now: real, t: Backend)
    requires BackendOk(p, b) && Exact(p, b) && t == Advance(p, b, pc, now, Fine).0
    ensures Exact(p, t)
  {
    if pc.AtAdd? || pc.AtAddAgain? {
      CalmAdd(p, b, now, t);
    } else if !pc.Done? {
      CalmIncr(p, b, now, t);
    }
  }

  lemma {:induction false} CalmRun(p: Policy, s: System, ops: seq<Op>)
    requires Inv(p, s) && Exact(p, s.shared) && Exact(p, s.fallback) && Calm(ops)
    ensures Exact(p, Run(p, s, ops).shared) && Exact(p, Run(p, s, ops).fallback)
    decreases |ops|
  {
    if ops != [] {
      StepKeeps(p, s, ops[0]);
      CalmStep(p, s, ops[0]);
      CalmRun(p, Step(p, s, ops[0]), ops[1..]);
    }
  }

  lemma CalmStep(p: Policy, s: System, op: Op)
    requires Inv(p, s) && Exact(p, s.shared) && Exact(p, s.fallback) && (op.Perform? ==> op.fault == Fine)
    ensures Exact(p, Step(p, s, op).shared) && Exact(p, Step(p, s, op).fallback)
  {
    if op.Perform? && op.id in s.pcs && !s.pcs[op.id].Done? {
      var b := if s.pcs[op.id].local then s.fallback else s.shared;
      CalmAdvance(p, b, s.pcs[op.id], op.time, Advance(p, b, s.pcs[op.id], op.time, Fine).0);
    }
  }

  lemma {:induction false} CalmShared(p: Policy, ops: seq<Op>, b: Backend)
    requires p.Valid() && Calm(ops) && b == Run(p, Idle(), ops).shared
    ensures BackendOk(p, b) && Exact(p, b)
  {
    RunKeeps(p, Idle(), ops);
    CalmRun(p, Idle(), ops);
  }

  /** The last lifetime has not ended. */
  ghost predicate Lasts(p: Policy, b: Backend, now: real) {
    b.starts != [] && now < b.starts[|b.starts| - 1] + p.window
  }

  /** The attempts let through in the last lifetime. */
  function Passed(b: Backend): nat {
    if b.starts == [] then 0 else InLife(b.passes, |b.starts| - 1)
  }

  predicate Counting(pc: Pc) { pc.AtIncr? || pc.AtIncrAgain? }

  lemma AdvanceDecides(p: Policy, b: Backend, pc: Pc, now: real, next: Pc)
    requires BackendOk(p, b) && Exact(p, b) && !pc.Done? && !pc.local && next == Advance(p, b, pc, now, Fine).1
    ensures next == Done(false) <==> Counting(pc) && Lasts(p, b, now) && Passed(b) == p.Cap()
    ensures next == Done(true) <==>
            if Counting(pc) then Lasts(p, b, now) && Passed(b) < p.Cap() else !Lasts(p, b, now)
  {
    assert Live(b.cell, now) <==> Lasts(p, b, now);
  }

  /**
    Over every interleaving without failures: an operation on the shared cache refuses its attempt exactly when the
    lifetime lasts and has let `limit` attempts through, and allows it exactly when it opens a lifetime or counts in
    one that has let fewer through.
   */
  lemma {:induction false} DecidedIff(p: Policy, ops: seq<Op>, s: System, id: nat, time: real)
    requires p.Valid() && Calm(ops) && s == Run(p, Idle(), ops)
    requires id in s.pcs && !s.pcs[id].Done? && !s.pcs[id].local && s.now <= time
    ensures var pc, next := s.pcs[id], Step(p, s, Perform(id, time, Fine)).pcs[id];
      && (next == Done(false) <==> Counting(pc) && Lasts(p, s.shared, time) && Passed(s.shared) == p.Cap())
      && (next == Done(true) <==>
          if Counting(pc) then Lasts(p, s.shared, time) && Passed(s.shared) < p.Cap()
          else !Lasts(p, s.shared, time))
  {
    CalmShared(p, ops, s.shared);
    AdvanceDecides(p, s.shared, s.pcs[id], time, Advance(p, s.shared, s.pcs[id], time, Fine).1);
  }

  /** Attempts made one after the other, each at one moment, and their answers. */
  ghost predicate Serial(p: Policy, cell: Option<Counter>, times: seq<real>, answers: seq<bool>)
    decreases |times|
  {
    |times| == |answers|
    && (times != [] ==>
      var (b, pc) := Alone(p, cell, times[0], times[0], times[0], times[0]);
      pc == Done(answers[0]) && Serial(p, b.cell, times[1..], answers[1..]))
  }

  lemma {:induction false} CountedAnswers(p: Policy, c: Counter, times: seq<real>, answers: seq<bool>, k: nat)
    requires k < |times| && Serial(p, Some(c), times, answers)
    requires forall i :: 0 <= i <= k ==> times[i] < c.expiresAt
    ensures answers[k] <==> c.count + k < p.limit
    decreases k
  {
    if k > 0 {
      CountedAnswers(p, c.(count := c.count + 1), times[1..], answers[1..], k - 1);
    }
  }

  /** Within one window of an attempt that finds no counter, the first `limit` attempts pass and all others do not. */
  lemma {:induction false} FirstOnesPass(p: Policy, cell: Option<Counter>, times: seq<real>, answers: seq<bool>,
                                         k: nat)
    requires p.Valid() && k < |times| && Serial(p, cell, times, answers)
    requires cell.Some? ==> cell.value.expiresAt <= times[0]
    requires forall i :: 0 <= i <= k ==> times[0] <= times[i] < times[0] + p.window
    ensures answers[k] <==> k == 0 || k < p.limit
  {
    if k > 0 {
      CountedAnswers(p, Counter(1, times[0] + p.window), times[1..], answers[1..], k - 1);
    }
  }
}
