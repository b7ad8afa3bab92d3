/** The concurrent `GetOrLoad` as a step machine over one shard: each section
    under the shard's lock is one step, and steps of different callers and of
    the rest of the program come in any order. */
module CacheFlight {
  import opened Text
  import opened CacheSpec

  /** Where a caller stands; `via` is the flight a return came from, if not a hit. */
  datatype Caller<K, V, E> =
    | Idle
    | Missed(k: K)
    | Loading(k: K, flight: nat)
    | Waiting(k: K, flight: nat)
    | Returned(k: K, outcome: Result<V, E>, via: Option<nat>)

  /** A load shared by callers: who runs it, and its outcome once it is back. */
  datatype Flight<K, V, E> = Flight(k: K, loader: nat, landed: Option<Result<V, E>>)

  datatype State<K, V, E> = State(
    slots: Recency<K, V>,
    now: int,
    callers: seq<Caller<K, V, E>>,
    inflight: map<K, nat>,
    flights: seq<Flight<K, V, E>>)

  datatype Step<K, V, E> =
    | Ask(t: nat, k: K)
    | Recheck(t: nat)
    | Land(t: nat, outcome: Result<V, E>)
    | Wake(t: nat)
    | Put(k: K, v: V)
    | Drop(k: K)
    | Clear
    | Tick(d: nat)

  function Start<K, V, E>(callers: nat, now: int): State<K, V, E> {
    State([], now, seq(callers, i => Idle), map[], [])
  }

  function Live<K(==), V>(s: Recency<K, V>, k: K, now: int): bool {
    Holds(s, k) && !Expired(s[IndexOf(s, k)], now)
  }

  predicate Enabled<K(==), V, E>(st: State<K, V, E>, step: Step<K, V, E>) {
    match step
    case Ask(t, k) => t < |st.callers| && (st.callers[t].Idle? || st.callers[t].Returned?)
    case Recheck(t) => t < |st.callers| && st.callers[t].Missed?
    case Land(t, _) => t < |st.callers| && st.callers[t].Loading?
    case Wake(t) =>
      && t < |st.callers| && st.callers[t].Waiting?
      && st.callers[t].flight < |st.flights| && st.flights[st.callers[t].flight].landed.Some?
    case _ => true
  }

  /** One step; a step that is not enabled does nothing. */
  function Next<K(==), V, E>(st: State<K, V, E>, step: Step<K, V, E>, ttl: int, cap: nat): State<K, V, E> {
    if !Enabled(st, step) then st
    else
      match step
      case Ask(t, k) =>
        var (slots, r) := Lookup(st.slots, k, st.now);
        st.(slots := slots, callers := st.callers[t := if r.Some? then Returned(k, Ok(r.value), None) else Missed(k)])
      case Recheck(t) => Rechecked(st, t, st.callers[t].k)
      case Land(t, outcome) =>
        var Loading(k, flight) := st.callers[t];
        st.(
          slots := if outcome.Ok? then Store(st.slots, k, outcome.value, ttl, st.now, cap).0 else st.slots,
          inflight := st.inflight - {k},
          flights := if flight < |st.flights| then st.flights[flight := Flight(k, t, Some(outcome))] else st.flights,
          callers := st.callers[t := Returned(k, outcome, Some(flight))])
      case Wake(t) =>
        var Waiting(k, flight) := st.callers[t];
        st.(callers := st.callers[t := Returned(k, st.flights[flight].landed.value, Some(flight))])
      case Put(k, v) => st.(slots := Store(st.slots, k, v, ttl, st.now, cap).0)
      case Drop(k) => st.(slots := Without(st.slots, k))
      case Clear => st.(slots := [])
      case Tick(d) => st.(now := st.now + d)
  }

  /** Under the lock: a live slot is returned, a flight in the air is joined,
      and only otherwise does this caller become the loader. */
  function Rechecked<K(==), V, E>(st: State<K, V, E>, t: nat, k: K): State<K, V, E>
    requires t < |st.callers|
  {
    if Live(st.slots, k, st.now) then
      var (slots, r) := Lookup(st.slots, k, st.now);
      st.(slots := slots, callers := st.callers[t := Returned(k, Ok(r.value), None)])
    else if k in st.inflight then
      st.(callers := st.callers[t := Waiting(k, st.inflight[k])])
    else
      var flight := |st.flights|;
      st.(
        inflight := st.inflight[k := flight],
        flights := st.flights + [Flight(k, t, None)],
        callers := st.callers[t := Loading(k, flight)])
  }

  function Run<K(==), V, E>(st: State<K, V, E>, steps: seq<Step<K, V, E>>, ttl: int, cap: nat): State<K, V, E>
    decreases |steps|
  {
    if steps == [] then st else Run(Next(st, steps[0], ttl, cap), steps[1..], ttl, cap)
  }

  /** At most one loader per key; the flights in the air are exactly those being
      loaded; every waiter's flight is its key's, and lands or has landed. */
  ghost predicate Sound<K, V, E>(st: State<K, V, E>) {
    && (forall t, u | 0 <= t < u < |st.callers| && st.callers[t].Loading? && st.callers[u].Loading? ::
          st.callers[t].k != st.callers[u].k)
    && (forall t | 0 <= t < |st.callers| && st.callers[t].Loading? ::
          st.callers[t].k in st.inflight && st.inflight[st.callers[t].k] == st.callers[t].flight)
    && (forall k | k in st.inflight :: Airborne(st, k))
    && (forall t | 0 <= t < |st.callers| && st.callers[t].Waiting? :: Joined(st, st.callers[t]))
    && (forall t | 0 <= t < |st.callers| && st.callers[t].Returned? :: Delivered(st, st.callers[t]))
    && (forall f | 0 <= f < |st.flights| :: st.flights[f].landed.None? ==>
          st.flights[f].k in st.inflight && st.inflight[st.flights[f].k] == f)
  }

  /** A registered flight has not landed and has a loader. */
  ghost predicate Airborne<K, V, E>(st: State<K, V, E>, k: K)
    requires k in st.inflight
  {
    var f := st.inflight[k];
    && f < |st.flights| && st.flights[f].k == k && st.flights[f].landed.None?
    && st.flights[f].loader < |st.callers| && st.callers[st.flights[f].loader] == Loading(k, f)
  }

  ghost predicate Joined<K, V, E>(st: State<K, V, E>, c: Caller<K, V, E>)
    requires c.Waiting?
  {
    c.flight < |st.flights| && st.flights[c.flight].k == c.k
  }

  /** A return through a flight carries that flight's own outcome. */
  ghost predicate Delivered<K, V, E>(st: State<K, V, E>, c: Caller<K, V, E>)
    requires c.Returned?
  {
    c.via.Some? ==>
      c.via.value < |st.flights| && st.flights[c.via.value].k == c.k
          && st.flights[c.via.value].landed == Some(c.outcome)
  }

  /** A caller that is not loading may move to any place but loading. */
  lemma {:induction false} MoveSound<K, V, E>(st: State<K, V, E>, next: State<K, V, E>, t: nat, c: Caller<K, V, E>)
    requires Sound(st) && t < |st.callers| && !st.callers[t].Loading? && !c.Loading? && (c.Waiting? ==> Joined(st, c))
    requires c.Returned? ==> Delivered(st, c)
    requires next == st.(slots := next.slots, callers := st.callers[t := c])
    ensures Sound(next)
  {
    assert forall k | k in st.inflight :: Airborne(st, k) ==> Airborne(next, k);
  }

  lemma {:induction false} LaunchSound<K, V, E>(st: State<K, V, E>, t: nat, k: K)
    requires Sound(st) && t < |st.callers| && !st.callers[t].Loading?
    requires !Live(st.slots, k, st.now) && k !in st.inflight
    ensures Sound(Rechecked(st, t, k))
  {
    hide Live;
    var next := Rechecked(st, t, k);
    assert forall x | x in st.inflight :: Airborne(st, x) ==> Airborne(next, x);
    assert Airborne(next, k);
    forall u | 0 <= u < |next.callers| && u != t && next.callers[u].Loading? ensures next.callers[u].k != k {
      assert st.callers[u].k in st.inflight;
    }
  }

  lemma {:induction false} LandSound<K, V, E>(st: State<K, V, E>, t: nat, outcome: Result<V, E>, ttl: int, cap: nat)
    requires Sound(st) && Enabled(st, Land(t, outcome))
    ensures Sound(Next(st, Land(t, outcome), ttl, cap))
  {
    hide Store;
    var next, k := Next(st, Land(t, outcome), ttl, cap), st.callers[t].k;
    forall x | x in next.inflight ensures Airborne(next, x) {
      assert Airborne(st, x) && Airborne(st, k);
    }
  }

  lemma InAir<K, V, E>(st: State<K, V, E>, k: K)
    requires Sound(st) && k in st.inflight
    ensures Airborne(st, k)
  {
  }

  lemma InJoined<K, V, E>(st: State<K, V, E>, t: nat)
    requires Sound(st) && t < |st.callers| && st.callers[t].Waiting?
    ensures Joined(st, st.callers[t])
  {
  }

  lemma {:induction false} SlotsSound<K, V, E>(st: State<K, V, E>, next: State<K, V, E>)
    requires Sound(st) && next == st.(slots := next.slots, now := next.now)
    ensures Sound(next)
  {
    assert forall k | k in st.inflight :: Airborne(st, k) ==> Airborne(next, k);
  }

  lemma {:induction false} StepSound<K, V, E>(st: State<K, V, E>, step: Step<K, V, E>, ttl: int, cap: nat)
    requires Sound(st)
    ensures Sound(Next(st, step, ttl, cap))
  {
    hide Sound, Live, Lookup, Store, Without;
    var next := Next(st, step, ttl, cap);
    if Enabled(st, step) {
      match step
      case Ask(t, k) => MoveSound(st, next, t, next.callers[t]);
      case Recheck(t) =>
        var k := st.callers[t].k;
        if k in st.inflight { InAir(st, k); }
        if Live(st.slots, k, st.now) || k in st.inflight {
          MoveSound(st, next, t, next.callers[t]);
        } else {
          LaunchSound(st, t, k);
        }
      case Land(t, outcome) => LandSound(st, t, outcome, ttl, cap);
      case Wake(t) =>
        InJoined(st, t);
        MoveSound(st, next, t, next.callers[t]);
      case _ => SlotsSound(st, next);
    }
  }

  /** In every run: one loader per key at a time, no waiter without a flight,
      and a flight's outcome is what everyone who joined it returns. */
  lemma {:induction false} RunSound<K, V, E>(st: State<K, V, E>, steps: seq<Step<K, V, E>>, ttl: int, cap: nat)
    requires Sound(st)
    ensures Sound(Run(st, steps, ttl, cap))
    decreases |steps|
  {
    hide Sound, Next;
    if steps != [] {
      StepSound(st, steps[0], ttl, cap);
      RunSound(Next(st, steps[0], ttl, cap), steps[1..], ttl, cap);
    }
  }

  lemma StartSound<K, V, E>(callers: nat, now: int)
    ensures Sound(Start<K, V, E>(callers, now))
  {
  }

  /** A parked caller is never stranded: its flight has landed, or its loader is running. */
  lemma {:induction false} WaiterIsServed<K, V, E>(st: State<K, V, E>, t: nat, ttl: int, cap: nat)
    requires Sound(st) && t < |st.callers| && st.callers[t].Waiting?
    ensures var f := st.flights[st.callers[t].flight];
            || Enabled(st, Wake(t))
            || (f.loader < |st.callers| && st.callers[f.loader] == Loading(f.k, st.callers[t].flight))
  {
    assert Joined(st, st.callers[t]);
    var f := st.callers[t].flight;
    if st.flights[f].landed.None? { assert Airborne(st, st.flights[f].k); }
  }

  /** A parked caller leaves only by waking once its flight has landed, and then
      returns that flight's outcome, marked as such; and whoever loads leaves only
      by landing its own flight, with the loader's outcome. */
  lemma {:induction false} CallerLeaves<K, V, E>(st: State<K, V, E>, step: Step<K, V, E>, t: nat, ttl: int, cap: nat)
    requires Sound(st) && t < |st.callers|
    ensures |Next(st, step, ttl, cap).callers| == |st.callers|
    ensures var c, after := st.callers[t], Next(st, step, ttl, cap).callers[t];
            && (c.Waiting? && after != c ==>
                && step == Wake(t) && c.flight < |st.flights| && st.flights[c.flight].landed.Some?
                && after == Returned(c.k, st.flights[c.flight].landed.value, Some(c.flight)))
            && (c.Loading? && after != c ==>
                && step.Land? && step.t == t && after == Returned(c.k, step.outcome, Some(c.flight))
                && c.flight < |Next(st, step, ttl, cap).flights|
                && Next(st, step, ttl, cap).flights[c.flight].landed == Some(step.outcome))
  {
    hide Lookup, Store, Without, Live;
    if st.callers[t].Waiting? { InJoined(st, t); }
    if st.callers[t].Loading? { InAir(st, st.callers[t].k); }
  }

  /** A caller starts loading if and only if it looks again under the lock, finds
      nothing live, and nobody else is loading the key; it parks behind whoever is. */
  lemma {:induction false} LoadsIff<K, V, E>(st: State<K, V, E>, step: Step<K, V, E>, t: nat, ttl: int, cap: nat)
    requires t < |st.callers| && st.callers[t].Missed?
    ensures var k, after := st.callers[t].k, Next(st, step, ttl, cap).callers[t];
            && (after.Loading? <==> step == Recheck(t) && !Live(st.slots, k, st.now) && k !in st.inflight)
            && (after.Waiting? <==> step == Recheck(t) && !Live(st.slots, k, st.now) && k in st.inflight)
            && (after.Returned? <==> step == Recheck(t) && Live(st.slots, k, st.now))
            && (after.Waiting? ==> after == Waiting(k, st.inflight[k]))
            && (after.Returned? ==> after == Returned(k, Ok(st.slots[IndexOf(st.slots, k)].value), None))
            && (after.Loading? ==> k in Next(st, step, ttl, cap).inflight && after.k == k)
  {
    hide Store, Without, IndexOf;
  }

  /** A call is answered without a load if and only if a live slot is held, with its value. */
  lemma {:induction false} AnsweredIff<K, V, E>(st: State<K, V, E>, k: K, t: nat, ttl: int, cap: nat)
    requires t < |st.callers| && (st.callers[t].Idle? || st.callers[t].Returned?)
    ensures var after := Next(st, Ask(t, k), ttl, cap).callers[t];
            if Live(st.slots, k, st.now) then after == Returned(k, Ok(st.slots[IndexOf(st.slots, k)].value), None)
            else after == Missed(k)
  {
    hide Store, Without, IndexOf;
  }

  /** What happened to one key: loads begun, loads that failed, values stored
      from outside, and slots of the key that went away or were overwritten. */
  datatype Tally = Tally(loads: nat, fails: nat, puts: nat, losses: nat)

  function Count(b: bool): nat { if b then 1 else 0 }

  /** Whether a step writes a slot for `k`. */
  predicate Writes<K(==), V, E>(st: State<K, V, E>, step: Step<K, V, E>, k: K) {
    Enabled(st, step) && ((step.Put? && step.k == k) || (step.Land? && step.outcome.Ok? && st.callers[step.t].k == k))
  }

  function Tallied<K(==), V, E>(st: State<K, V, E>, step: Step<K, V, E>, ttl: int, cap: nat, k: K, n: Tally): Tally {
    var next := Next(st, step, ttl, cap);
    Tally(
      n.loads + Count(k !in st.inflight && k in next.inflight),
      n.fails + Count(Enabled(st, step) && step.Land? && step.outcome.Err? && st.callers[step.t].k == k),
      n.puts + Count(step.Put? && step.k == k),
      n.losses + Count(Holds(st.slots, k) && (!Holds(next.slots, k) || Writes(st, step, k))))
  }

  function TallyOf<K(==), V, E>(st: State<K, V, E>, steps: seq<Step<K, V, E>>, ttl: int, cap: nat, k: K,
          n: Tally): Tally
    decreases |steps|
  {
    if steps == [] then n
    else TallyOf(Next(st, steps[0], ttl, cap), steps[1..], ttl, cap, k, Tallied(st, steps[0], ttl, cap, k, n))
  }

  /** Every load and every outside store is a failure, a loss, the load in the air, or the slot held. */
  ghost predicate Balanced<K, V, E>(st: State<K, V, E>, k: K, n: Tally) {
    n.loads + n.puts == n.fails + n.losses + Count(k in st.inflight) + Count(Holds(st.slots, k))
  }

  lemma {:induction false} LookupHolds<K, V>(s: Recency<K, V>, k: K, now: int, x: K)
    requires Distinct(s)
    ensures Distinct(Lookup(s, k, now).0)
    ensures Holds(Lookup(s, k, now).0, x) <==> Holds(s, x) && (x == k ==> Live(s, k, now))
  {
    hide IndexOf, Without;
    var t := Lookup(s, k, now).0;
    WithoutKeeps(s, k);
    if Holds(s, k) {
      assert s[IndexOf(s, k)] in s;
      if Live(s, k, now) { HoldsMember(t, s[IndexOf(s, k)]); }
    }
    if x != k { SameHolds(s, t, x); }
  }

  lemma {:induction false} StoreHolds<K, V>(s: Recency<K, V>, k: K, v: V, ttl: int, now: int, cap: nat)
    requires Distinct(s)
    ensures Distinct(Store(s, k, v, ttl, now, cap).0) && Holds(Store(s, k, v, ttl, now, cap).0, k)
    ensures forall x | x != k && Holds(Store(s, k, v, ttl, now, cap).0, x) :: Holds(s, x)
  {
    hide IndexOf, Without;
    var t := Store(s, k, v, ttl, now, cap).0;
    WithoutKeeps(s, k);
    HoldsMember(t, t[0]);
    forall x | x != k && Holds(t, x) ensures Holds(s, x) {
      var y := t[IndexOf(t, x)];
      assert y in t && y != t[0];
      HoldsMember(s, y);
    }
    if !Holds(s, k) {
      forall y | y in s ensures y.key != k { if y.key == k { HoldsMember(s, y); } }
    }
  }

  /** No step unbalances a key's account. */
  lemma {:induction false} StepBalances<K, V, E>(
      st: State<K, V, E>, step: Step<K, V, E>, ttl: int, cap: nat, k: K, n: Tally)
    requires Sound(st) && Distinct(st.slots) && Balanced(st, k, n)
    ensures Distinct(Next(st, step, ttl, cap).slots)
    ensures Balanced(Next(st, step, ttl, cap), k, Tallied(st, step, ttl, cap, k, n))
  {
    hide IndexOf, Lookup, Store, Without, Live, Holds, Distinct;
    if Enabled(st, step) {
      match step
      case Ask(t, x) => LookupHolds(st.slots, x, st.now, k);
      case Recheck(t) => LookupHolds(st.slots, st.callers[t].k, st.now, k);
      case Land(t, outcome) =>
        if outcome.Ok? { StoreHolds(st.slots, st.callers[t].k, outcome.value, ttl, st.now, cap); }
      case Put(x, v) => StoreHolds(st.slots, x, v, ttl, st.now, cap);
      case Drop(x) => WithoutKeeps(st.slots, x); if k != x { SameHolds(st.slots, Without(st.slots, x), k); }
      case Clear => NothingHeld<K, V>(k);
      case _ =>
    }
    StepDistinct(st, step, ttl, cap);
  }

  lemma {:induction false} RunBalances<K, V, E>(
      st: State<K, V, E>, steps: seq<Step<K, V, E>>, ttl: int, cap: nat, k: K, n: Tally)
    requires Sound(st) && Distinct(st.slots) && Balanced(st, k, n)
    ensures Balanced(Run(st, steps, ttl, cap), k, TallyOf(st, steps, ttl, cap, k, n))
    decreases |steps|
  {
    hide Sound, Next, Balanced, Distinct, Tallied;
    if steps != [] {
      StepSound(st, steps[0], ttl, cap);
      StepBalances(st, steps[0], ttl, cap, k, n);
      RunBalances(
        Next(st, steps[0], ttl, cap), steps[1..], ttl, cap, k, Tallied(st, steps[0], ttl, cap, k, n));
    }
  }

  /** From an empty shard, in any interleaving: the loads begun for a key and
      the values stored for it from outside are exactly the loads that failed,
      the slots of the key since lost, the load in the air and the slot held. */
  lemma {:induction false} LoadsAccountedFor<K, V, E>(
      callers: nat, now: int, steps: seq<Step<K, V, E>>, ttl: int, cap: nat, k: K)
    ensures var start, zero := Start<K, V, E>(callers, now), Tally(0, 0, 0, 0);
            Balanced(Run(start, steps, ttl, cap), k, TallyOf(start, steps, ttl, cap, k, zero))
  {
    hide Run, TallyOf;
    var start := Start<K, V, E>(callers, now);
    StartSound<K, V, E>(callers, now);
    RunBalances(start, steps, ttl, cap, k, Tally(0, 0, 0, 0));
  }

  /** While a key is being loaded, nothing live is held for it. */
  ghost predicate Missing<K, V, E>(st: State<K, V, E>, k: K) {
    k in st.inflight ==> !Live(st.slots, k, st.now)
  }

  /** A live slot for a key comes only from a store for that key. */
  lemma {:induction false} StepMisses<K, V, E>(st: State<K, V, E>, step: Step<K, V, E>, ttl: int, cap: nat, k: K)
    requires Sound(st) && Distinct(st.slots) && Missing(st, k) && !(step.Put? && step.k == k)
    ensures Missing(Next(st, step, ttl, cap), k)
  {
    hide IndexOf, Lookup, Store, Without, Distinct, Holds, Live, Expired;
    var next := Next(st, step, ttl, cap);
    if Enabled(st, step) && k in next.inflight {
      match step
      case Ask(t, x) => LookupLive(st.slots, x, st.now, k);
      case Recheck(t) => LookupLive(st.slots, st.callers[t].k, st.now, k);
      case Land(t, outcome) =>
        if outcome.Ok? { StoreLive(st.slots, st.callers[t].k, outcome.value, ttl, st.now, cap, k); }
      case Put(x, v) => StoreLive(st.slots, x, v, ttl, st.now, cap, k);
      case Drop(x) => WithoutLive(st.slots, x, st.now, k);
      case Clear => NothingLive<K, V>(k, st.now);
      case Tick(d) => LaterLive(st.slots, k, st.now, d);
      case _ =>
    }
  }

  lemma {:induction false} RunMisses<K, V, E>(st: State<K, V, E>, steps: seq<Step<K, V, E>>, ttl: int, cap: nat, k: K)
    requires Sound(st) && Distinct(st.slots) && Missing(st, k)
    requires forall s | s in steps :: !(s.Put? && s.k == k)
    ensures Missing(Run(st, steps, ttl, cap), k)
    decreases |steps|
  {
    hide Sound, Next, Distinct, Missing;
    if steps != [] {
      assert steps[0] in steps;
      StepSound(st, steps[0], ttl, cap);
      StepDistinct(st, steps[0], ttl, cap);
      StepMisses(st, steps[0], ttl, cap, k);
      RunMisses(Next(st, steps[0], ttl, cap), steps[1..], ttl, cap, k);
    }
  }

  /** From an empty shard, in any interleaving in which nobody stores the key
      from outside: a load of it begins only when the key is absent or expired,
      and it still is for as long as the load is in the air, so no landing ever
      overwrites a live slot. */
  lemma {:induction false} LoadsOnlyWhenMissing<K, V, E>(
      callers: nat, now: int, steps: seq<Step<K, V, E>>, ttl: int, cap: nat, k: K)
    requires forall s | s in steps :: !(s.Put? && s.k == k)
    ensures Missing(Run(Start<K, V, E>(callers, now), steps, ttl, cap), k)
  {
    hide Run;
    StartSound<K, V, E>(callers, now);
    RunMisses(Start<K, V, E>(callers, now), steps, ttl, cap, k);
  }

  lemma {:induction false} LookupLive<K, V>(s: Recency<K, V>, k: K, now: int, x: K)
    requires Distinct(s)
    ensures Live(Lookup(s, k, now).0, x, now) ==> Live(s, x, now)
  {
    hide IndexOf, Without;
    var t := Lookup(s, k, now).0;
    WithoutKeeps(s, k);
    if x != k { SameHolds(s, t, x); } else { LookupHolds(s, k, now, k); }
  }

  lemma {:induction false} StoreLive<K, V>(s: Recency<K, V>, k: K, v: V, ttl: int, now: int, cap: nat, x: K)
    requires Distinct(s) && x != k
    ensures Live(Store(s, k, v, ttl, now, cap).0, x, now) ==> Live(s, x, now)
  {
    hide IndexOf, Without;
    var t := Store(s, k, v, ttl, now, cap).0;
    WithoutKeeps(s, k);
    if Holds(t, x) {
      var y := t[IndexOf(t, x)];
      assert y in t && y != t[0];
      assert y in s;
      HoldsMember(s, y);
      assert s[IndexOf(s, x)] == y;
    }
  }

  lemma {:induction false} WithoutLive<K, V>(s: Recency<K, V>, k: K, now: int, x: K)
    requires Distinct(s)
    ensures Live(Without(s, k), x, now) ==> Live(s, x, now)
  {
    hide IndexOf, Without;
    WithoutKeeps(s, k);
    if x != k { SameHolds(s, Without(s, k), x); }
  }

  lemma NothingLive<K, V>(k: K, now: int)
    ensures !Live<K, V>([], k, now)
  {
  }

  lemma LaterLive<K, V>(s: Recency<K, V>, k: K, now: int, d: nat)
    ensures Live(s, k, now + d) ==> Live(s, k, now)
  {
  }

  /** Loaders that compute a function of the key, and nothing stored from outside. */
  ghost predicate Pure<K(!new), V(!new), E(!new)>(st: State<K, V, E>, step: Step<K, V, E>, load: K -> Result<V, E>) {
    !step.Put? && (Enabled(st, step) && step.Land? ==> step.outcome == load(st.callers[step.t].k))
  }

  ghost predicate PureRun<K(!new), V(!new), E(!new)>(
      st: State<K, V, E>, steps: seq<Step<K, V, E>>, ttl: int, cap: nat, load: K -> Result<V, E>)
    decreases |steps|
  {
    steps == [] || (Pure(st, steps[0], load) && PureRun(Next(st, steps[0], ttl, cap), steps[1..], ttl, cap, load))
  }

  ghost predicate Answers<K(!new), V(!new), E(!new)>(s: Recency<K, V>, load: K -> Result<V, E>) {
    forall x | x in s :: load(x.key) == Ok(x.value)
  }

  /** Everything held, landed or returned is the function's own answer. */
  ghost predicate Transparent<K(!new), V(!new), E(!new)>(st: State<K, V, E>, load: K -> Result<V, E>) {
    && Answers(st.slots, load)
    && (forall f | f in st.flights && f.landed.Some? :: f.landed.value == load(f.k))
    && (forall c | c in st.callers && c.Returned? :: c.outcome == load(c.k))
  }

  lemma {:induction false} LookupAnswers<K(!new), V(!new), E(!new)>(
      s: Recency<K, V>, k: K, now: int, load: K -> Result<V, E>)
    requires Distinct(s) && Answers(s, load)
    ensures Answers(Without(s, k), load) && Answers(Lookup(s, k, now).0, load)
    ensures Lookup(s, k, now).1.Some? ==> load(k) == Ok(Lookup(s, k, now).1.value)
  {
    hide IndexOf, Without;
    WithoutKeeps(s, k);
    assert Answers(Without(s, k), load);
    if Holds(s, k) {
      var slot := s[IndexOf(s, k)];
      assert slot in s;
      assert Answers([slot] + Without(s, k), load);
    }
  }

  lemma {:induction false} StoreAnswers<K(!new), V(!new), E(!new)>(
      s: Recency<K, V>, k: K, v: V, ttl: int, now: int, cap: nat, load: K -> Result<V, E>)
    requires Distinct(s) && Answers(s, load) && load(k) == Ok(v)
    ensures Answers(Store(s, k, v, ttl, now, cap).0, load)
  {
    hide IndexOf, Without;
    WithoutKeeps(s, k);
    var t := Store(s, k, v, ttl, now, cap).0;
    assert Answers(Without(s, k), load);
    assert t[1..] == Without(s, k) || t[1..] == s[..|s| - 1] || t[1..] == s;
    assert Answers(t[1..], load);
    assert Answers([t[0]] + t[1..], load);
    assert t == [t[0]] + t[1..];
  }

  lemma {:induction false} StepTransparent<K(!new), V(!new), E(!new)>(
      st: State<K, V, E>, step: Step<K, V, E>, ttl: int, cap: nat, load: K -> Result<V, E>)
    requires Sound(st) && Distinct(st.slots) && Transparent(st, load) && Pure(st, step, load)
    ensures Transparent(Next(st, step, ttl, cap), load)
  {
    hide Lookup, Store, Without, Live, Distinct, Answers;
    if Enabled(st, step) {
      match step
      case Ask(t, x) => LookupAnswers(st.slots, x, st.now, load);
      case Recheck(t) =>
        LookupAnswers(st.slots, st.callers[t].k, st.now, load);
        LiveHits(st.slots, st.callers[t].k, st.now);
      case Land(t, outcome) =>
        assert Airborne(st, st.callers[t].k);
        if outcome.Ok? { StoreAnswers(st.slots, st.callers[t].k, outcome.value, ttl, st.now, cap, load); }
      case Wake(t) => assert Joined(st, st.callers[t]);
      case Drop(x) => LookupAnswers(st.slots, x, st.now, load);
      case Clear => NothingAnswers(load);
      case _ =>
    }
  }

  lemma LiveHits<K, V>(s: Recency<K, V>, k: K, now: int)
    ensures Live(s, k, now) <==> Lookup(s, k, now).1.Some?
  {
  }

  lemma NothingAnswers<K(!new), V(!new), E(!new)>(load: K -> Result<V, E>)
    ensures Answers([], load)
  {
  }

  /** Caching changes nothing: whatever the interleaving, the evictions, the
      expiries and the purges, every call returns what its own loader would. */
  lemma {:induction false} CachingIsInvisible<K(!new), V(!new), E(!new)>(
      st: State<K, V, E>, steps: seq<Step<K, V, E>>, ttl: int, cap: nat, load: K -> Result<V, E>)
    requires Sound(st) && Distinct(st.slots) && Transparent(st, load) && PureRun(st, steps, ttl, cap, load)
    ensures Transparent(Run(st, steps, ttl, cap), load)
    decreases |steps|
  {
    hide Sound, Next, Transparent, Distinct, Pure;
    if steps != [] {
      StepSound(st, steps[0], ttl, cap);
      StepTransparent(st, steps[0], ttl, cap, load);
      StepDistinct(st, steps[0], ttl, cap);
      CachingIsInvisible(Next(st, steps[0], ttl, cap), steps[1..], ttl, cap, load);
    }
  }

  lemma {:induction false} StepDistinct<K, V, E>(st: State<K, V, E>, step: Step<K, V, E>, ttl: int, cap: nat)
    requires Distinct(st.slots)
    ensures Distinct(Next(st, step, ttl, cap).slots)
  {
    hide IndexOf, Lookup, Store, Without, Live, Holds, Distinct;
    if Enabled(st, step) {
      match step
      case Ask(t, x) => LookupHolds(st.slots, x, st.now, x);
      case Recheck(t) => LookupHolds(st.slots, st.callers[t].k, st.now, st.callers[t].k);
      case Land(t, outcome) =>
        if outcome.Ok? { StoreHolds(st.slots, st.callers[t].k, outcome.value, ttl, st.now, cap); }
      case Put(x, v) => StoreHolds(st.slots, x, v, ttl, st.now, cap);
      case Drop(x) => WithoutKeeps(st.slots, x);
      case Clear => assert Distinct<K, V>([]) by { NothingHeldIsDistinct<K, V>(); }
      case _ =>
    }
  }

  lemma NothingHeldIsDistinct<K, V>()
    ensures Distinct<K, V>([])
  {
  }

  lemma NothingHeld<K, V>(k: K)
    ensures !Holds<K, V>([], k)
  {
  }
}
