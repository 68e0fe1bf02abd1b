/**
  Idempotent dispatch of one schedule slot.  Concurrent deliveries of the slot share one cache key; each delivery
  takes the key, publishes the task, and records its id, in steps that interleave with the others'.
 */
module TaskDispatch {
  import opened Options

  const TTL := 86400

  datatype Expires = Absent | Seconds(n: int) | NotAnInteger

  predicate ValidExpires(e: Expires) {
    e.Absent? || (e.Seconds? && 1 <= e.n <= 300)
  }

  datatype Answer = Duplicate | InvalidExpires | Unavailable | Queued

  /**
    Where a delivery stands: the key taken at `since`, the task published, or an answer given.  A dead one does no
    more.
   */
  datatype Progress = Arrived | Holding(since: int) | Published(since: int) | Answered(answer: Answer) | Dead

  datatype Delivery = Delivery(expires: Expires, progress: Progress)

  datatype Mark = Dispatching | TaskId

  datatype Key = Key(mark: Mark, deadline: int)

  /** `sent` are the moments at which the deliveries whose publication succeeded took the key. */
  datatype State = State(now: int, key: Option<Key>, deliveries: seq<Delivery>, sent: seq<int>, leaked: nat)

  /** A publication may raise although the task got through. */
  datatype Action =
    | Tick(seconds: nat)
    | Add(i: nat)
    | Reject(i: nat)
    | Publish(i: nat)
    | PublishFails(i: nat, leaks: bool)
    | Record(i: nat)
    | Die(i: nat)

  predicate Live(key: Option<Key>, now: int) {
    key.Some? && now < key.value.deadline
  }

  /** How often the task was sent. */
  function Sends(s: State): nat {
    |s.sent| + s.leaked
  }

  function Move(s: State, i: nat, to: Progress): State
    requires i < |s.deliveries|
  {
    s.(deliveries := s.deliveries[i := s.deliveries[i].(progress := to)])
  }

  predicate Holds(s: State, i: nat) {
    i < |s.deliveries| && s.deliveries[i].progress.Holding?
  }

  predicate Enabled(s: State, a: Action) {
    match a
    case Tick(_) => true
    case Add(i) => i < |s.deliveries| && s.deliveries[i].progress == Arrived
    case Reject(i) => Holds(s, i) && !ValidExpires(s.deliveries[i].expires)
    case Publish(i) => Holds(s, i) && ValidExpires(s.deliveries[i].expires)
    case PublishFails(i, _) => Holds(s, i) && ValidExpires(s.deliveries[i].expires)
    case Record(i) => i < |s.deliveries| && s.deliveries[i].progress.Published?
    case Die(i) => i < |s.deliveries| && !s.deliveries[i].progress.Answered?
  }

  function Step(s: State, a: Action): State
    requires Enabled(s, a)
  {
    match a
    case Tick(seconds) => s.(now := s.now + seconds)
    case Add(i) =>
      if Live(s.key, s.now) then Move(s, i, Answered(Duplicate))
      else Move(s, i, Holding(s.now)).(key := Some(Key(Dispatching, s.now + TTL)))
    case Reject(i) => Move(s, i, Answered(InvalidExpires)).(key := None)
    case Publish(i) =>
      var since := s.deliveries[i].progress.since;
      Move(s, i, Published(since)).(sent := s.sent + [since])
    case PublishFails(i, leaks) =>
      Move(s, i, Answered(Unavailable)).(key := None, leaked := s.leaked + if leaks then 1 else 0)
    case Record(i) => Move(s, i, Answered(Queued)).(key := Some(Key(TaskId, s.now + TTL)))
    case Die(i) => Move(s, i, Dead)
  }

  ghost predicate IsRun(s: State, actions: seq<Action>)
    decreases |actions|
  {
    actions == [] || (Enabled(s, actions[0]) && IsRun(Step(s, actions[0]), actions[1..]))
  }

  ghost function After(s: State, actions: seq<Action>): State
    requires IsRun(s, actions)
    decreases |actions|
  {
    if actions == [] then s else After(Step(s, actions[0]), actions[1..])
  }

  lemma {:induction false} First(s: State, a: Action, rest: seq<Action>)
    requires Enabled(s, a) && IsRun(Step(s, a), rest)
    ensures IsRun(s, [a] + rest) && After(s, [a] + rest) == After(Step(s, a), rest)
  {
    assert ([a] + rest)[0] == a && ([a] + rest)[1..] == rest;
  }

  lemma {:induction false} OneStep(s: State, a: Action)
    requires Enabled(s, a)
    ensures IsRun(s, [a]) && After(s, [a]) == Step(s, a)
  {
    First(s, a, []);
    assert [a] + [] == [a];
  }

  lemma {:induction false} TwoSteps(s: State, a: Action, b: Action)
    requires Enabled(s, a) && Enabled(Step(s, a), b)
    ensures IsRun(s, [a, b]) && After(s, [a, b]) == Step(Step(s, a), b)
  {
    OneStep(Step(s, a), b);
    First(s, a, [b]);
    assert [a] + [b] == [a, b];
  }

  lemma {:induction false} ThreeSteps(s: State, a: Action, b: Action, c: Action)
    requires Enabled(s, a) && Enabled(Step(s, a), b) && Enabled(Step(Step(s, a), b), c)
    ensures IsRun(s, [a, b, c]) && After(s, [a, b, c]) == Step(Step(Step(s, a), b), c)
  {
    TwoSteps(Step(s, a), b, c);
    First(s, a, [b, c]);
    assert [a] + [b, c] == [a, b, c];
  }

  // ----- One delivery, start to finish -----

  datatype Broker = Takes | Raises(leaks: bool)

  /** The steps of delivery i with nothing in between. */
  function Uninterrupted(s: State, i: nat, broker: Broker): seq<Action>
    requires i < |s.deliveries|
  {
    if Live(s.key, s.now) then [Add(i)]
    else if !ValidExpires(s.deliveries[i].expires) then [Add(i), Reject(i)]
    else if broker.Raises? then [Add(i), PublishFails(i, broker.leaks)]
    else [Add(i), Publish(i), Record(i)]
  }

  function Outcome(s: State, i: nat, broker: Broker): State
    requires i < |s.deliveries|
  {
    if Live(s.key, s.now) then Move(s, i, Answered(Duplicate))
    else if !ValidExpires(s.deliveries[i].expires) then Move(s, i, Answered(InvalidExpires)).(key := None)
    else if broker.Raises? then
      Move(s, i, Answered(Unavailable)).(key := None, leaked := s.leaked + if broker.leaks then 1 else 0)
    else Move(s, i, Answered(Queued)).(key := Some(Key(TaskId, s.now + TTL)), sent := s.sent + [s.now])
  }

  lemma {:induction false} QueuedRun(s: State, i: nat)
    requires i < |s.deliveries| && s.deliveries[i].progress == Arrived
    requires !Live(s.key, s.now) && ValidExpires(s.deliveries[i].expires)
    ensures IsRun(s, [Add(i), Publish(i), Record(i)])
    ensures After(s, [Add(i), Publish(i), Record(i)]) == Outcome(s, i, Takes)
  {
    var one := Step(s, Add(i));
    var two := Step(one, Publish(i));
    ThreeSteps(s, Add(i), Publish(i), Record(i));
    assert Step(two, Record(i)).deliveries == Outcome(s, i, Takes).deliveries;
  }

  lemma {:induction false} RefusedRun(s: State, i: nat, broker: Broker)
    requires i < |s.deliveries| && s.deliveries[i].progress == Arrived && !Live(s.key, s.now)
    requires ValidExpires(s.deliveries[i].expires) ==> broker.Raises?
    ensures IsRun(s, Uninterrupted(s, i, broker))
    ensures After(s, Uninterrupted(s, i, broker)) == Outcome(s, i, broker)
  {
    if !ValidExpires(s.deliveries[i].expires) {
      TwoSteps(s, Add(i), Reject(i));
      assert Step(Step(s, Add(i)), Reject(i)).deliveries == Outcome(s, i, broker).deliveries;
    } else {
      TwoSteps(s, Add(i), PublishFails(i, broker.leaks));
      assert Step(Step(s, Add(i)), PublishFails(i, broker.leaks)).deliveries == Outcome(s, i, broker).deliveries;
    }
  }

  /** Those steps are a run, and come out as one call should. */
  lemma {:induction false} UninterruptedIsARun(s: State, i: nat, broker: Broker)
    requires i < |s.deliveries| && s.deliveries[i].progress == Arrived
    ensures IsRun(s, Uninterrupted(s, i, broker))
    ensures After(s, Uninterrupted(s, i, broker)) == Outcome(s, i, broker)
  {
    if Live(s.key, s.now) {
      OneStep(s, Add(i));
    } else if ValidExpires(s.deliveries[i].expires) && broker.Takes? {
      QueuedRun(s, i);
    } else {
      RefusedRun(s, i, broker);
    }
  }

  /** The answer of a delivery that finds no live key. */
  function Verdict(expires: Expires, broker: Broker): Answer {
    match expires
    case NotAnInteger => InvalidExpires
    case Seconds(n) => if n < 1 || 300 < n then InvalidExpires else if broker.Raises? then Unavailable else Queued
    case Absent => if broker.Raises? then Unavailable else Queued
  }

  /** Delivery i, undisturbed, takes s to t. */
  ghost predicate Gives(s: State, i: nat, broker: Broker, t: State) {
    && i < |s.deliveries|
    && IsRun(s, Uninterrupted(s, i, broker))
    && After(s, Uninterrupted(s, i, broker)) == t
  }

  /** t is s after the answer v to delivery i: the task is sent and the key kept for 24 hours exactly when queued. */
  ghost predicate Settles(s: State, i: nat, v: Answer, t: State) {
    && i < |s.deliveries| && t.now == s.now
    && t.deliveries == s.deliveries[i := s.deliveries[i].(progress := Answered(v))]
    && t.sent == (if v == Queued then s.sent + [s.now] else s.sent)
    && t.key == (if v == Queued then Some(Key(TaskId, s.now + 86400)) else None)
  }

  lemma OutcomeSettles(s: State, i: nat, broker: Broker)
    requires i < |s.deliveries| && !Live(s.key, s.now)
    ensures Settles(s, i, Verdict(s.deliveries[i].expires, broker), Outcome(s, i, broker))
  {
  }

  /** An undisturbed delivery that finds no live key gets the answer its expiry and the broker call for. */
  lemma Judged(s: State, i: nat, broker: Broker) returns (t: State)
    requires i < |s.deliveries| && s.deliveries[i].progress == Arrived
    requires s.key.Some? ==> s.key.value.deadline <= s.now
    ensures Gives(s, i, broker, t) && Settles(s, i, Verdict(s.deliveries[i].expires, broker), t)
  {
    UninterruptedIsARun(s, i, broker);
    t := Outcome(s, i, broker);
    OutcomeSettles(s, i, broker);
  }

  lemma Turned(s: State, i: nat, broker: Broker) returns (t: State)
    requires i < |s.deliveries| && s.deliveries[i].progress == Arrived && Live(s.key, s.now)
    ensures Gives(s, i, broker, t) && |t.deliveries| == |s.deliveries|
    ensures t.deliveries[i].progress == Answered(Duplicate) && t.sent == s.sent
  {
    UninterruptedIsARun(s, i, broker);
    t := Outcome(s, i, broker);
  }

  /**
    The queue delivers the slot again after `wait` seconds: that delivery is a duplicate exactly when the first was
    queued less than 24 hours ago, and otherwise judged as if it were the first.
   */
  lemma Redelivery(s: State, i: nat, broker: Broker, wait: nat, j: nat, again: Broker) returns (t: State, u: State)
    requires i < |s.deliveries| && s.deliveries[i].progress == Arrived
    requires j < |s.deliveries| && s.deliveries[j].progress == Arrived && i != j
    requires s.key.Some? ==> s.key.value.deadline <= s.now
    ensures Gives(s, i, broker, t) && Settles(s, i, Verdict(s.deliveries[i].expires, broker), t)
    ensures Gives(Step(t, Tick(wait)), j, again, u) && |u.deliveries| == |s.deliveries|
    ensures u.deliveries[j].progress == Answered(Duplicate) && u.sent == t.sent <==>
            Verdict(s.deliveries[i].expires, broker) == Queued && wait < 86400
    ensures u.deliveries[j].progress != Answered(Duplicate) ==>
              Settles(Step(t, Tick(wait)), j, Verdict(s.deliveries[j].expires, again), u)
  {
    t := Judged(s, i, broker);
    var later := Step(t, Tick(wait));
    if Live(later.key, later.now) {
      u := Turned(later, j, again);
    } else {
      u := Judged(later, j, again);
    }
  }

  /** The cache cell of the slot's key, the deliveries of the slot, and the tasks published. */
  class Slot {
    var now: int
    var key: Option<Key>
    var deliveries: seq<Delivery>
    var sent: seq<int>
    var leaked: nat

    ghost function View(): State
      reads this
    {
      State(now, key, deliveries, sent, leaked)
    }

    method Reply(i: nat, answer: Answer)
      requires i < |deliveries|
      modifies this`deliveries
      ensures View() == Move(old(View()), i, Answered(answer))
    {
      deliveries := deliveries[i := deliveries[i].(progress := Answered(answer))];
    }

    /** Handle one delivery with nothing in between: a run of its steps, and its answer. */
    method Dispatch(i: nat, broker: Broker) returns (answer: Answer)
      requires i < |deliveries| && deliveries[i].progress == Arrived
      modifies this
      ensures IsRun(old(View()), Uninterrupted(old(View()), i, broker))
      ensures View() == After(old(View()), Uninterrupted(old(View()), i, broker))
      ensures i < |deliveries| && deliveries[i].progress == Answered(answer)
    {
      UninterruptedIsARun(View(), i, broker);
      if Live(key, now) {
        Reply(i, Duplicate);
        return Duplicate;
      }
      key := Some(Key(Dispatching, now + TTL));
      if !ValidExpires(deliveries[i].expires) {
        key := None;
        Reply(i, InvalidExpires);
        return InvalidExpires;
      }
      if broker.Raises? {
        leaked := leaked + if broker.leaks then 1 else 0;
        key := None;
        Reply(i, Unavailable);
        return Unavailable;
      }
      sent := sent + [now];
      key := Some(Key(TaskId, now + TTL));
      Reply(i, Queued);
      return Queued;
    }
  }

  // ----- Whatever the length of the run: two sends are a key's life apart -----

  predicate Owns(d: Delivery) {
    d.progress.Holding? || d.progress.Published?
  }

  /** No delivery has started and no key is left from before. */
  ghost predicate Fresh(s: State) {
    s.key == None && s.sent == [] && s.leaked == 0
    && forall i :: 0 <= i < |s.deliveries| ==> s.deliveries[i].progress == Arrived
  }

  /** The holder of the key acts before the life its key was given has passed; anything else may happen at any time. */
  predicate ActsInTime(s: State, a: Action)
    requires Enabled(s, a)
  {
    match a
    case Reject(i) => s.now < s.deliveries[i].progress.since + TTL
    case Publish(i) => s.now < s.deliveries[i].progress.since + TTL
    case PublishFails(i, _) => s.now < s.deliveries[i].progress.since + TTL
    case Record(i) => s.now < s.deliveries[i].progress.since + TTL
    case _ => true
  }

  ghost predicate Prompt(s: State, actions: seq<Action>)
    requires IsRun(s, actions)
    decreases |actions|
  {
    actions == [] || (ActsInTime(s, actions[0]) && Prompt(Step(s, actions[0]), actions[1..]))
  }

  /** Delivery i owns the key, and the life of that key has not passed. */
  predicate Current(s: State, i: int) {
    0 <= i < |s.deliveries| && Owns(s.deliveries[i]) && s.now < s.deliveries[i].progress.since + TTL
  }

  ghost predicate KeyCovers(s: State, since: int) {
    s.key.Some? && since + TTL <= s.key.value.deadline
  }

  ghost predicate Spaced(sent: seq<int>) {
    forall a, b :: 0 <= a < b < |sent| ==> sent[a] + TTL <= sent[b]
  }

  ghost predicate OneCurrent(s: State) {
    && (forall i, j :: Current(s, i) && Current(s, j) ==> i == j)
    && (forall i :: Current(s, i) ==> KeyCovers(s, s.deliveries[i].progress.since))
  }

  /** A holder took the key when all earlier sends were a key's life old; the key of a younger send is still there. */
  ghost predicate SentOk(s: State) {
    && (forall a, i :: 0 <= a < |s.sent| && Current(s, i) && s.deliveries[i].progress.Holding? ==>
          s.sent[a] + TTL <= s.deliveries[i].progress.since)
    && (forall a :: 0 <= a < |s.sent| && s.now < s.sent[a] + TTL ==> KeyCovers(s, s.sent[a]))
  }

  ghost predicate LifeInv(s: State) {
    && Spaced(s.sent) && OneCurrent(s) && SentOk(s)
    && (forall a :: 0 <= a < |s.sent| ==> s.sent[a] <= s.now)
    && forall i :: 0 <= i < |s.deliveries| && Owns(s.deliveries[i]) ==> s.deliveries[i].progress.since <= s.now
  }

  lemma TickKeepsLife(s: State, seconds: nat)
    requires LifeInv(s)
    ensures LifeInv(Step(s, Tick(seconds)))
  {
    var t := Step(s, Tick(seconds));
    forall i | Current(t, i) ensures Current(s, i) { }
  }

  /** A step of delivery i that gives up ownership and leaves key and sends alone. */
  lemma LeavingKeepsLife(s: State, i: nat, to: Progress)
    requires LifeInv(s) && i < |s.deliveries| && !to.Holding? && !to.Published?
    ensures LifeInv(Move(s, i, to))
    ensures forall j :: Current(Move(s, i, to), j) ==> Current(s, j) && j != i
  {
    var t := Move(s, i, to);
    forall j | Current(t, j) ensures Current(s, j) && j != i && t.deliveries[j] == s.deliveries[j] { }
  }

  lemma AddKeepsLife(s: State, i: nat)
    requires LifeInv(s) && Enabled(s, Add(i))
    ensures LifeInv(Step(s, Add(i)))
  {
    var t := Step(s, Add(i));
    if Live(s.key, s.now) {
      LeavingKeepsLife(s, i, Answered(Duplicate));
    } else {
      assert forall j :: Current(t, j) ==> j == i || Current(s, j);
    }
  }

  /** Nobody else is current, and no send is younger than the key, while i holds it. */
  lemma SoleHolder(s: State, i: nat)
    requires LifeInv(s) && Holds(s, i) && s.now < s.deliveries[i].progress.since + TTL
    ensures forall j :: Current(s, j) ==> j == i
    ensures forall a :: 0 <= a < |s.sent| ==> s.sent[a] + TTL <= s.deliveries[i].progress.since <= s.now
  {
    assert Current(s, i);
  }

  lemma ReleaseKeepsLife(s: State, i: nat, answer: Answer, leaked: nat)
    requires LifeInv(s) && Holds(s, i) && s.now < s.deliveries[i].progress.since + TTL
    ensures LifeInv(Move(s, i, Answered(answer)).(key := None, leaked := leaked))
  {
    SoleHolder(s, i);
    LeavingKeepsLife(s, i, Answered(answer));
    var t := Move(s, i, Answered(answer)).(key := None, leaked := leaked);
    assert forall j :: Current(t, j) <==> Current(Move(s, i, Answered(answer)), j);
  }

  lemma PublishKeepsLife(s: State, i: nat)
    requires LifeInv(s) && Enabled(s, Publish(i)) && ActsInTime(s, Publish(i))
    ensures LifeInv(Step(s, Publish(i)))
  {
    var t := Step(s, Publish(i));
    SoleHolder(s, i);
    assert Current(s, i);
    assert forall j :: Current(t, j) ==> j == i || Current(s, j);
  }

  lemma RecordKeepsLife(s: State, i: nat)
    requires LifeInv(s) && Enabled(s, Record(i)) && ActsInTime(s, Record(i))
    ensures LifeInv(Step(s, Record(i)))
  {
    var t := Step(s, Record(i));
    assert Current(s, i);
    LeavingKeepsLife(s, i, Answered(Queued));
    assert forall j :: Current(t, j) <==> Current(Move(s, i, Answered(Queued)), j);
  }

  lemma PromptStepKeepsLife(s: State, a: Action)
    requires LifeInv(s) && Enabled(s, a) && ActsInTime(s, a)
    ensures LifeInv(Step(s, a))
  {
    match a
    case Tick(seconds) => TickKeepsLife(s, seconds);
    case Add(i) => AddKeepsLife(s, i);
    case Reject(i) => ReleaseKeepsLife(s, i, InvalidExpires, s.leaked);
    case Publish(i) => PublishKeepsLife(s, i);
    case PublishFails(i, leaks) => ReleaseKeepsLife(s, i, Unavailable, s.leaked + if leaks then 1 else 0);
    case Record(i) => RecordKeepsLife(s, i);
    case Die(i) => LeavingKeepsLife(s, i, Dead);
  }

  lemma {:induction false} PromptRunKeepsLife(s: State, actions: seq<Action>)
    requires LifeInv(s) && IsRun(s, actions) && Prompt(s, actions)
    ensures LifeInv(After(s, actions))
    decreases |actions|
  {
    if actions != [] {
      PromptStepKeepsLife(s, actions[0]);
      PromptRunKeepsLife(Step(s, actions[0]), actions[1..]);
    }
  }

  /**
    In every interleaving, of any length, in which holders act before the life of their key has passed, two
    successful publications took their keys at least a key's life apart.
   */
  lemma {:induction false} SendsAreSpaced(s: State, actions: seq<Action>)
    requires Fresh(s) && IsRun(s, actions) && Prompt(s, actions)
    ensures Spaced(After(s, actions).sent)
  {
    PromptRunKeepsLife(s, actions);
  }

  // ----- Within one life -----

  /** The whole run happens before `end`. */
  ghost predicate EndsBefore(s: State, actions: seq<Action>, end: int)
    requires IsRun(s, actions)
    decreases |actions|
  {
    s.now < end && (actions != [] ==> EndsBefore(Step(s, actions[0]), actions[1..], end))
  }

  ghost predicate NotBefore(s: State, start: int) {
    && start <= s.now
    && (forall i :: 0 <= i < |s.deliveries| && Owns(s.deliveries[i]) ==>
          start <= s.deliveries[i].progress.since <= s.now)
    && (forall a :: 0 <= a < |s.sent| ==> start <= s.sent[a] <= s.now)
  }

  /** A run that is over within a key's life gives no holder the time to be late. */
  lemma {:induction false} ShortRunIsPrompt(s: State, actions: seq<Action>, start: int)
    requires IsRun(s, actions) && EndsBefore(s, actions, start + TTL) && NotBefore(s, start)
    ensures Prompt(s, actions) && NotBefore(After(s, actions), start) && After(s, actions).now < start + TTL
    decreases |actions|
  {
    if actions != [] {
      ShortRunIsPrompt(Step(s, actions[0]), actions[1..], start);
    }
  }

  lemma SpanOfSends(sent: seq<int>, from: int, to: int)
    requires Spaced(sent) && forall a :: 0 <= a < |sent| ==> from <= sent[a] <= to
    ensures |sent| >= 2 ==> from + TTL <= to
  {
    if |sent| >= 2 { assert sent[0] + TTL <= sent[1]; }
  }

  /**
    In every interleaving that ends within the key's life the task is sent at most once, not counting failed
    publications that got through.
   */
  lemma {:induction false} AtMostOnce(s: State, actions: seq<Action>)
    requires Fresh(s) && IsRun(s, actions) && EndsBefore(s, actions, s.now + TTL)
    ensures |After(s, actions).sent| <= 1 && Sends(After(s, actions)) <= 1 + After(s, actions).leaked
  {
    ShortRunIsPrompt(s, actions, s.now);
    SendsAreSpaced(s, actions);
    SpanOfSends(After(s, actions).sent, s.now, After(s, actions).now);
  }

  // ----- Exactly when the task is sent at most once, leaks included -----

  /** A publication that raised although the task got through. */
  predicate Leaks(a: Action) {
    a.PublishFails? && a.leaks
  }

  /** The actions that send the task. */
  predicate Sending(a: Action) {
    a.Publish? || Leaks(a)
  }

  ghost predicate Quiet(actions: seq<Action>) {
    forall i :: 0 <= i < |actions| ==> !Sending(actions[i])
  }

  /** Nothing is sent after a publication that raised although the task got through. */
  ghost predicate LeaksAreLast(actions: seq<Action>) {
    forall i, j :: 0 <= i < j < |actions| && Leaks(actions[i]) ==> !Sending(actions[j])
  }

  lemma QuietRest(actions: seq<Action>)
    requires actions != []
    ensures Quiet(actions) <==> !Sending(actions[0]) && Quiet(actions[1..])
  {
    if !Sending(actions[0]) && Quiet(actions[1..]) {
      forall i | 0 <= i < |actions| ensures !Sending(actions[i]) {
        if i > 0 { assert actions[i] == actions[1..][i - 1]; }
      }
    }
  }

  lemma LeaksAreLastRest(actions: seq<Action>)
    requires actions != []
    ensures LeaksAreLast(actions)
            <==> (Leaks(actions[0]) ==> Quiet(actions[1..])) && LeaksAreLast(actions[1..])
  {
    var rest := actions[1..];
    assert forall i :: 0 <= i < |rest| ==> rest[i] == actions[i + 1];
    if (Leaks(actions[0]) ==> Quiet(rest)) && LeaksAreLast(rest) {
      forall i, j | 0 <= i < j < |actions| && Leaks(actions[i]) ensures !Sending(actions[j]) {
        assert actions[j] == rest[j - 1];
        if i > 0 { assert actions[i] == rest[i - 1]; }
      }
    }
  }

  /** The number of sends never falls, and stays where it is exactly when nothing is sent. */
  lemma {:induction false} QuietIff(s: State, actions: seq<Action>)
    requires IsRun(s, actions)
    ensures Sends(s) <= Sends(After(s, actions))
    ensures Sends(After(s, actions)) == Sends(s) <==> Quiet(actions)
    decreases |actions|
  {
    if actions != [] {
      QuietIff(Step(s, actions[0]), actions[1..]);
      QuietRest(actions);
    }
  }

  lemma SendIsOld(s: State, i: nat, a: nat, start: int)
    requires LifeInv(s) && Holds(s, i) && s.now < s.deliveries[i].progress.since + TTL
    requires a < |s.sent| && start <= s.sent[a]
    ensures start + TTL <= s.now
  {
    SoleHolder(s, i);
  }

  lemma HolderMeansUnsent(s: State, i: nat, start: int)
    requires LifeInv(s) && NotBefore(s, start) && Holds(s, i) && s.now < start + TTL
    ensures s.sent == []
  {
    if s.sent != [] { SendIsOld(s, i, 0, start); }
  }

  /** Within the life of the key, a successful send is the last. */
  lemma {:induction false} QuietAfterSend(s: State, actions: seq<Action>, start: int)
    requires LifeInv(s) && NotBefore(s, start) && s.sent != []
    requires IsRun(s, actions) && EndsBefore(s, actions, start + TTL)
    ensures Quiet(actions)
    decreases |actions|
  {
    if actions != [] {
      var a := actions[0];
      assert !Sending(a) by {
        if Sending(a) { HolderMeansUnsent(s, a.i, start); }
      }
      PromptStepKeepsLife(s, a);
      QuietAfterSend(Step(s, a), actions[1..], start);
      QuietRest(actions);
    }
  }

  lemma {:induction false} SentOnceIff(s: State, actions: seq<Action>, start: int)
    requires LifeInv(s) && NotBefore(s, start) && Sends(s) == 0
    requires IsRun(s, actions) && EndsBefore(s, actions, start + TTL)
    ensures Sends(After(s, actions)) <= 1 <==> LeaksAreLast(actions)
    decreases |actions|
  {
    if actions != [] {
      var a, rest := actions[0], actions[1..];
      var t := Step(s, a);
      PromptStepKeepsLife(s, a);
      LeaksAreLastRest(actions);
      if Sending(a) {
        QuietIff(t, rest);
        if a.Publish? { QuietAfterSend(t, rest, start); }
      } else {
        SentOnceIff(t, rest, start);
      }
    }
  }

  /**
    In every interleaving that ends within the key's life the task is sent at most once, leaks included, exactly when
    nothing is sent after a publication that raised although the task got through.
   */
  lemma {:induction false} AtMostOnceIff(s: State, actions: seq<Action>)
    requires Fresh(s) && IsRun(s, actions) && EndsBefore(s, actions, s.now + TTL)
    ensures Sends(After(s, actions)) <= 1 <==> LeaksAreLast(actions)
  {
    SentOnceIff(s, actions, s.now);
  }

  /** Such a retry: the first publication raises although the task got through, and the second delivery sends again. */
  lemma {:induction false} LeakedSendIsRepeated(now: int)
    ensures var s := State(now, None, [Delivery(Absent, Arrived), Delivery(Absent, Arrived)], [], 0);
      var actions := [Add(0), PublishFails(0, true), Add(1), Publish(1), Record(1)];
      && Fresh(s) && IsRun(s, actions) && EndsBefore(s, actions, now + TTL)
      && Sends(After(s, actions)) == 2
      && After(s, actions).deliveries[1].progress == Answered(Queued)
  {
    var s := State(now, None, [Delivery(Absent, Arrived), Delivery(Absent, Arrived)], [], 0);
    var s1 := Step(s, Add(0));
    var s2 := Step(s1, PublishFails(0, true));
    ThreeSteps(s2, Add(1), Publish(1), Record(1));
    First(s1, PublishFails(0, true), [Add(1), Publish(1), Record(1)]);
    First(s, Add(0), [PublishFails(0, true), Add(1), Publish(1), Record(1)]);
    assert [PublishFails(0, true)] + [Add(1), Publish(1), Record(1)]
        == [PublishFails(0, true), Add(1), Publish(1), Record(1)];
    assert [Add(0)] + [PublishFails(0, true), Add(1), Publish(1), Record(1)]
        == [Add(0), PublishFails(0, true), Add(1), Publish(1), Record(1)];
    EndsBeforeIff(s, [Add(0), PublishFails(0, true), Add(1), Publish(1), Record(1)], now + TTL);
  }

  // ----- Two successful sends -----

  lemma {:induction false} TimeIsMonotone(s: State, actions: seq<Action>)
    requires IsRun(s, actions)
    ensures s.now <= After(s, actions).now
    decreases |actions|
  {
    if actions != [] { TimeIsMonotone(Step(s, actions[0]), actions[1..]); }
  }

  lemma {:induction false} EndsBeforeIff(s: State, actions: seq<Action>, end: int)
    requires IsRun(s, actions)
    ensures EndsBefore(s, actions, end) <==> After(s, actions).now < end
    decreases |actions|
  {
    TimeIsMonotone(s, actions);
    if actions != [] { EndsBeforeIff(Step(s, actions[0]), actions[1..], end); }
  }

  /** A run from a fresh slot that is over within `duration` and in which the task is successfully sent twice. */
  ghost predicate SendsTwice(s: State, actions: seq<Action>, duration: int) {
    Fresh(s) && IsRun(s, actions) && After(s, actions).now <= s.now + duration && |After(s, actions).sent| >= 2
  }

  /** A delivery that stalls for the key's whole life lets a second one in, and both send. */
  lemma StalledDeliverySendsTwice(now: int)
    ensures var s := State(now, None, [Delivery(Absent, Arrived), Delivery(Absent, Arrived)], [], 0);
      SendsTwice(s, [Add(0), Tick(TTL), Add(1), Publish(1), Publish(0)], TTL)
  {
    var s := State(now, None, [Delivery(Absent, Arrived), Delivery(Absent, Arrived)], [], 0);
    var s1 := Step(s, Add(0));
    var s2 := Step(s1, Tick(TTL));
    ThreeSteps(s2, Add(1), Publish(1), Publish(0));
    First(s1, Tick(TTL), [Add(1), Publish(1), Publish(0)]);
    First(s, Add(0), [Tick(TTL), Add(1), Publish(1), Publish(0)]);
    assert [Tick(TTL)] + [Add(1), Publish(1), Publish(0)] == [Tick(TTL), Add(1), Publish(1), Publish(0)];
    assert [Add(0)] + [Tick(TTL), Add(1), Publish(1), Publish(0)]
        == [Add(0), Tick(TTL), Add(1), Publish(1), Publish(0)];
  }

  /** The task can be successfully sent twice within some time exactly when that time is at least the key's life. */
  lemma {:induction false} SendsTwiceIff(duration: int)
    ensures (exists s, actions :: SendsTwice(s, actions, duration)) <==> 86400 <= duration
  {
    if TTL <= duration {
      StalledDeliverySendsTwice(0);
      var s := State(0, None, [Delivery(Absent, Arrived), Delivery(Absent, Arrived)], [], 0);
      assert SendsTwice(s, [Add(0), Tick(TTL), Add(1), Publish(1), Publish(0)], duration);
    } else {
      forall s, actions ensures !SendsTwice(s, actions, duration) {
        if SendsTwice(s, actions, duration) {
          EndsBeforeIff(s, actions, s.now + TTL);
          AtMostOnce(s, actions);
        }
      }
    }
  }

  // ----- At least once, and exactly once -----

  ghost predicate Unfinished(s: State) {
    exists i :: 0 <= i < |s.deliveries| && (s.deliveries[i].progress.Holding? || s.deliveries[i].progress == Dead)
  }

  predicate TellsToRetry(p: Progress) {
    p == Answered(InvalidExpires) || p == Answered(Unavailable)
  }

  ghost predicate ToldToRetry(s: State) {
    exists j :: 0 <= j < |s.deliveries| && TellsToRetry(s.deliveries[j].progress)
  }

  /**
    While nothing is sent, a key has a holder or a dead delivery behind it, and a lost duplicate has a retry to count
    on.
   */
  ghost predicate Accounted(s: State) {
    s.sent == [] ==>
      && (forall i :: 0 <= i < |s.deliveries| ==>
            !s.deliveries[i].progress.Published? && s.deliveries[i].progress != Answered(Queued))
      && (s.key.Some? ==> Unfinished(s))
      && (s.key.None? ==>
            forall i :: 0 <= i < |s.deliveries| && s.deliveries[i].progress == Answered(Duplicate) ==> ToldToRetry(s))
  }

  lemma StaysTold(s: State, a: Action)
    requires ToldToRetry(s) && Enabled(s, a)
    ensures ToldToRetry(Step(s, a))
  {
    var j :| 0 <= j < |s.deliveries| && TellsToRetry(s.deliveries[j].progress);
    assert Step(s, a).deliveries[j] == s.deliveries[j];
  }

  lemma StaysUnfinished(s: State, a: Action)
    requires Accounted(s) && Enabled(s, a)
    ensures Step(s, a).key.Some? && Step(s, a).sent == [] ==> Unfinished(Step(s, a))
  {
    var t := Step(s, a);
    if t.key.Some? && t.sent == [] {
      if (a.Add? && !Live(s.key, s.now)) || a.Die? {
        assert t.deliveries[a.i].progress.Holding? || t.deliveries[a.i].progress == Dead;
      } else {
        var k :| 0 <= k < |s.deliveries| && (s.deliveries[k].progress.Holding? || s.deliveries[k].progress == Dead);
        assert t.deliveries[k] == s.deliveries[k];
      }
    }
  }

  lemma StaysRetried(s: State, a: Action)
    requires Accounted(s) && Enabled(s, a) && Step(s, a).key.None? && Step(s, a).sent == []
    ensures forall i :: 0 <= i < |Step(s, a).deliveries| && Step(s, a).deliveries[i].progress == Answered(Duplicate) ==>
              ToldToRetry(Step(s, a))
  {
    var t := Step(s, a);
    if ToldToRetry(s) {
      StaysTold(s, a);
    } else if a.Reject? || a.PublishFails? {
      assert TellsToRetry(t.deliveries[a.i].progress);
    } else {
      forall i | 0 <= i < |t.deliveries| ensures t.deliveries[i].progress != Answered(Duplicate) {
        if a.Die? && a.i == i { } else { assert t.deliveries[i] == s.deliveries[i]; }
      }
    }
  }

  lemma StepKeepsAccounted(s: State, a: Action)
    requires Accounted(s) && Enabled(s, a)
    ensures Accounted(Step(s, a))
  {
    StaysUnfinished(s, a);
    if Step(s, a).key.None? && Step(s, a).sent == [] { StaysRetried(s, a); }
  }

  lemma {:induction false} RunKeepsAccounted(s: State, actions: seq<Action>)
    requires Accounted(s) && IsRun(s, actions)
    ensures Accounted(After(s, actions)) && |After(s, actions).deliveries| == |s.deliveries|
    decreases |actions|
  {
    if actions != [] {
      StepKeepsAccounted(s, actions[0]);
      RunKeepsAccounted(Step(s, actions[0]), actions[1..]);
    }
  }

  /** A publication that raised although the task got through was answered 503. */
  ghost predicate LeaksAreTold(s: State) {
    s.leaked > 0 ==> exists j :: 0 <= j < |s.deliveries| && s.deliveries[j].progress == Answered(Unavailable)
  }

  lemma StepKeepsLeaksTold(s: State, a: Action)
    requires LeaksAreTold(s) && Enabled(s, a)
    ensures LeaksAreTold(Step(s, a))
  {
    var t := Step(s, a);
    if a.PublishFails? {
      assert t.deliveries[a.i].progress == Answered(Unavailable);
    } else if t.leaked > 0 {
      var j :| 0 <= j < |s.deliveries| && s.deliveries[j].progress == Answered(Unavailable);
      assert t.deliveries[j] == s.deliveries[j];
    }
  }

  lemma {:induction false} RunKeepsLeaksTold(s: State, actions: seq<Action>)
    requires LeaksAreTold(s) && IsRun(s, actions)
    ensures LeaksAreTold(After(s, actions))
    decreases |actions|
  {
    if actions != [] {
      StepKeepsLeaksTold(s, actions[0]);
      RunKeepsLeaksTold(Step(s, actions[0]), actions[1..]);
    }
  }

  ghost predicate AllAccepted(s: State) {
    forall i :: 0 <= i < |s.deliveries| ==>
      s.deliveries[i].progress == Answered(Duplicate) || s.deliveries[i].progress == Answered(Queued)
  }

  lemma AcceptedMeansSent(s: State)
    requires Accounted(s) && s.deliveries != [] && AllAccepted(s)
    ensures s.sent != []
  {
    assert s.deliveries[0].progress == Answered(Duplicate) || s.deliveries[0].progress == Answered(Queued);
  }

  /**
    In every run, of any length: when every delivery was answered 202, which a dead one never is, the task was sent,
    and no failed publication got through.
   */
  lemma {:induction false} AtLeastOnce(s: State, actions: seq<Action>)
    requires Fresh(s) && s.deliveries != [] && IsRun(s, actions) && AllAccepted(After(s, actions))
    ensures After(s, actions).sent != [] && After(s, actions).leaked == 0
  {
    RunKeepsAccounted(s, actions);
    AcceptedMeansSent(After(s, actions));
    RunKeepsLeaksTold(s, actions);
  }

  /** And within the key's life it was then sent exactly once. */
  lemma {:induction false} ExactlyOnce(s: State, actions: seq<Action>)
    requires Fresh(s) && s.deliveries != [] && IsRun(s, actions) && EndsBefore(s, actions, s.now + TTL)
    requires AllAccepted(After(s, actions))
    ensures Sends(After(s, actions)) == 1 && |After(s, actions).sent| == 1
  {
    AtLeastOnce(s, actions);
    AtMostOnce(s, actions);
  }
}
