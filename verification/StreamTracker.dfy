/** Slots for concurrent streams: a locked map of atomic counters, released by guards without the lock.
    A counter is an unsigned 32-bit number that wraps around. */
module StreamTracker {
  import opened Wrappers

  const U32: nat := 0x1_0000_0000

  type Limit = n: nat | n < U32

  function Add(x: nat, y: nat): nat { (x + y) % U32 }

  function Sub(x: nat, y: nat): nat
    requires y <= U32
  {
    (x + (U32 - y)) % U32
  }

  /** How far the thread that holds the lock has come. */
  datatype Progress = Entered | Loaded(current: nat) | Decided(granted: bool)

  datatype Holder = Holder(thread: nat, user: string, progress: Progress)

  /** Counters, the users of the live guards, and the thread inside `acquire`, if any. */
  datatype State = State(limit: Limit, counters: map<string, nat>, guards: multiset<string>, holder: Option<Holder>)

  /** One atomic step: a thread locks the map and finds or creates the counter, reads it, adds one to it or
      gives up, and unlocks; a guard is dropped by anyone at any time. */
  datatype Event = Lock(thread: nat, user: string) | Load(thread: nat) | Decide(thread: nat) | Unlock(thread: nat) | Drop(user: string)

  predicate Holds(s: State, thread: nat) { s.holder.Some? && s.holder.value.thread == thread }

  function Moved(s: State, p: Progress): State
    requires s.holder.Some?
  {
    s.(holder := Some(s.holder.value.(progress := p)))
  }

  function Counter(counters: map<string, nat>, user: string): nat { if user in counters then counters[user] else 0 }

  function Step(s: State, e: Event): State {
    match e
    case Lock(t, user) =>
      if s.holder.Some? then s
      else s.(counters := s.counters[user := Counter(s.counters, user)], holder := Some(Holder(t, user, Entered)))
    case Load(t) =>
      if !Holds(s, t) || !s.holder.value.progress.Entered? then s
      else Moved(s, Loaded(Counter(s.counters, s.holder.value.user)))
    case Decide(t) =>
      if !Holds(s, t) || !s.holder.value.progress.Loaded? then s
      else if s.holder.value.progress.current >= s.limit then Moved(s, Decided(false))
      else
        var user := s.holder.value.user;
        Moved(s, Decided(true)).(counters := s.counters[user := Add(Counter(s.counters, user), 1)], guards := s.guards + multiset{user})
    case Unlock(t) =>
      if !Holds(s, t) || !s.holder.value.progress.Decided? then s else s.(holder := None)
    case Drop(user) =>
      if user !in s.guards then s
      else s.(counters := s.counters[user := Sub(Counter(s.counters, user), 1)], guards := s.guards - multiset{user})
  }

  function Steps(s: State, events: seq<Event>): State {
    if events == [] then s else Step(Steps(s, events[..|events| - 1]), events[|events| - 1])
  }

  function Initial(limit: Limit): State { State(limit, map[], multiset{}, None) }

  /** The user's counter is the number of their live guards, within the limit. */
  ghost predicate Right(counters: map<string, nat>, guards: multiset<string>, limit: nat, user: string) {
    Counter(counters, user) == guards[user] <= limit
  }

  ghost predicate AllRight(counters: map<string, nat>, guards: multiset<string>, limit: nat) {
    forall user :: Right(counters, guards, limit, user)
  }

  /** What was read of the counter can only have gone down since. */
  ghost predicate Inv(s: State) {
    && AllRight(s.counters, s.guards, s.limit)
    && (s.holder.Some? && s.holder.value.progress.Loaded? ==> Counter(s.counters, s.holder.value.user) <= s.holder.value.progress.current)
  }

  lemma AddKeeps(counters: map<string, nat>, guards: multiset<string>, limit: Limit, user: string)
    requires AllRight(counters, guards, limit) && Counter(counters, user) < limit
    ensures AllRight(counters[user := Add(Counter(counters, user), 1)], guards + multiset{user}, limit)
  {
    var after, more := counters[user := Add(Counter(counters, user), 1)], guards + multiset{user};
    forall u ensures Right(after, more, limit, u) {
      assert Right(counters, guards, limit, u);
    }
  }

  lemma DropKeeps(counters: map<string, nat>, guards: multiset<string>, limit: Limit, user: string)
    requires AllRight(counters, guards, limit) && user in guards
    ensures AllRight(counters[user := Sub(Counter(counters, user), 1)], guards - multiset{user}, limit)
    ensures user in counters && Sub(Counter(counters, user), 1) < Counter(counters, user)
  {
    assert Right(counters, guards, limit, user);
    var after, fewer := counters[user := Sub(Counter(counters, user), 1)], guards - multiset{user};
    forall u ensures Right(after, fewer, limit, u) {
      assert Right(counters, guards, limit, u);
    }
  }

  lemma CreateKeeps(counters: map<string, nat>, guards: multiset<string>, limit: Limit, user: string)
    requires AllRight(counters, guards, limit)
    ensures AllRight(counters[user := Counter(counters, user)], guards, limit)
  {
    var after := counters[user := Counter(counters, user)];
    forall u ensures Right(after, guards, limit, u) {
      assert Right(counters, guards, limit, u);
    }
  }

  lemma StepKeepsInv(s: State, e: Event)
    requires Inv(s)
    ensures Inv(Step(s, e))
  {
    hide AllRight, Add, Sub;
    match e
    case Lock(t, user) =>
      CreateKeeps(s.counters, s.guards, s.limit, user);
    case Load(t) =>
    case Decide(t) =>
      if Holds(s, t) && Counter(s.counters, s.holder.value.user) < s.limit {
        AddKeeps(s.counters, s.guards, s.limit, s.holder.value.user);
      }
    case Unlock(t) =>
    case Drop(user) =>
      if user in s.guards {
        DropKeeps(s.counters, s.guards, s.limit, user);
      }
  }

  /** In every interleaving each user's counter equals the number of their live guards and never exceeds the
      limit, although a slot may be released between the reading and the adding. */
  lemma {:induction false} CountersAreGuards(limit: Limit, events: seq<Event>)
    ensures var s := Steps(Initial(limit), events);
            Inv(s) && s.limit == limit && forall user :: Right(s.counters, s.guards, limit, user)
  {
    if events != [] {
      CountersAreGuards(limit, events[..|events| - 1]);
      hide Inv, AllRight, Right, Steps;
      var s := Steps(Initial(limit), events[..|events| - 1]);
      StepKeepsInv(s, events[|events| - 1]);
      StepsLast(Initial(limit), events);
      InvMeans(Step(s, events[|events| - 1]));
    } else {
      assert AllRight(map[], multiset{}, limit);
    }
  }

  lemma StepsLast(s: State, events: seq<Event>)
    requires events != []
    ensures Steps(s, events) == Step(Steps(s, events[..|events| - 1]), events[|events| - 1])
  {
  }

  lemma InvMeans(s: State)
    requires Inv(s)
    ensures forall user :: Right(s.counters, s.guards, s.limit, user)
  {
  }

  /** A slot is refused only if all were taken when the counter was read. */
  lemma RefusedOnlyWhenFull(s: State, thread: nat, between: seq<string>)
    requires Inv(s) && Holds(s, thread) && s.holder.value.progress == Entered
    ensures var t := Step(Dropped(Step(s, Load(thread)), between), Decide(thread));
            && Holds(t, thread)
            && t.holder.value.progress == Decided(s.guards[s.holder.value.user] < s.limit)
  {
    DropsKeepHolder(Step(s, Load(thread)), between);
    assert Right(s.counters, s.guards, s.limit, s.holder.value.user);
  }

  function Dropped(s: State, users: seq<string>): State {
    if users == [] then s else Step(Dropped(s, users[..|users| - 1]), Drop(users[|users| - 1]))
  }

  lemma {:induction false} DropsKeepHolder(s: State, users: seq<string>)
    ensures Dropped(s, users).holder == s.holder && Dropped(s, users).limit == s.limit
  {
    if users != [] {
      DropsKeepHolder(s, users[..|users| - 1]);
    }
  }

  lemma StepsMore(s: State, events: seq<Event>, e: Event)
    ensures Steps(s, events + [e]) == Step(Steps(s, events), e)
  {
    assert (events + [e])[..|events|] == events;
  }

  lemma FourSteps(s: State, e: Event, f: Event, g: Event, h: Event)
    ensures Steps(s, [e, f, g, h]) == Step(Step(Step(Step(s, e), f), g), h)
  {
    hide Step, Steps;
    NoSteps(s);
    StepsMore(s, [], e);
    StepsMore(s, [e], f);
    StepsMore(s, [e, f], g);
    StepsMore(s, [e, f, g], h);
    assert [] + [e] == [e] && [e] + [f] == [e, f] && [e, f] + [g] == [e, f, g] && [e, f, g] + [h] == [e, f, g, h];
  }

  /** Whoever finds the map unlocked gets a slot if one is free, and leaves the map unlocked for the next one. */
  lemma AcquireInTurn(s: State, thread: nat, user: string)
    requires Inv(s) && s.holder == None
    ensures var t := Steps(s, [Lock(thread, user), Load(thread), Decide(thread), Unlock(thread)]);
            && Inv(t) && t.holder == None && t.limit == s.limit
            && t.guards == s.guards + if s.guards[user] < s.limit then multiset{user} else multiset{}
  {
    hide Inv, Steps;
    var locked := Step(s, Lock(thread, user));
    var loaded := Step(locked, Load(thread));
    FourSteps(s, Lock(thread, user), Load(thread), Decide(thread), Unlock(thread));
    StepKeepsInv(s, Lock(thread, user));
    StepKeepsInv(locked, Load(thread));
    StepKeepsInv(loaded, Decide(thread));
    StepKeepsInv(Step(loaded, Decide(thread)), Unlock(thread));
    InvMeans(s);
    assert Right(s.counters, s.guards, s.limit, user);
  }

  lemma NoSteps(s: State)
    ensures Steps(s, []) == s
  {
  }

  // ---------------------------------------------------------------- the tracker in place

  class ActiveStreamTracker {
    const limit: Limit
    var counters: map<string, nat>
    ghost var guards: multiset<string>

    ghost predicate Valid()
      reads this
    {
      AllRight(counters, guards, limit)
    }

    constructor (limit: Limit)
      ensures this.limit == limit && Valid() && guards == multiset{}
    {
      this.limit, counters, guards := limit, map[], multiset{};
    }

    /** Releases one slot of the user. */
    method DropGuard(user: string)
      requires Valid() && user in guards
      modifies this
      ensures Valid() && guards == old(guards) - multiset{user}
      ensures old(counters.Keys) <= counters.Keys
    {
      hide AllRight, Sub;
      DropKeeps(counters, guards, limit, user);
      counters := counters[user := Sub(counters[user], 1)];
      guards := guards - multiset{user};
    }

    /** Takes a slot; `meanwhile` are the users whose guards are dropped between the reading and the adding. */
    method Acquire(user: string, meanwhile: seq<string>) returns (granted: bool)
      requires Valid() && multiset(meanwhile) <= guards
      modifies this
      ensures Valid() && granted == (old(guards)[user] < limit)
      ensures guards == old(guards) - multiset(meanwhile) + if granted then multiset{user} else multiset{}
    {
      CreateKeeps(counters, guards, limit, user);
      counters := if user in counters then counters else counters[user := 0];
      assert counters == old(counters)[user := Counter(old(counters), user)];
      assert Right(counters, guards, limit, user);
      var current := counters[user];
      DropAll(meanwhile);
      assert Right(counters, guards, limit, user);
      hide AllRight, Add;
      if current >= limit {
        return false;
      }
      AddKeeps(counters, guards, limit, user);
      counters := counters[user := Add(counters[user], 1)];
      guards := guards + multiset{user};
      return true;
    }

    method DropAll(users: seq<string>)
      requires Valid() && multiset(users) <= guards
      modifies this
      ensures Valid() && guards == old(guards) - multiset(users)
      ensures old(counters.Keys) <= counters.Keys
      decreases |users|
    {
      if users != [] {
        assert users == [users[0]] + users[1..];
        DropGuard(users[0]);
        DropAll(users[1..]);
      }
    }
  }
}
