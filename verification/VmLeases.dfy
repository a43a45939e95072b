/** The lease table of the virtual machine service as a protocol: any number of start,
    stop and run calls interleave; the table lock makes each table access one step and
    every guest has a lock of its own. */
module VmLeases {
  type Lease = string
  type Guest = nat
  type CallId = nat

  /** How far a call has come. */
  datatype Phase =
    | Preparing(lease: Lease)             // start: choosing a share, booting
    | Booted(lease: Lease, guest: Guest)  // start: the guest runs but is not in the table yet
    | Leaving(guest: Guest)               // took the guest out of the table, waits for its lock
    | Stopping(guest: Guest)              // holds the lock, about to stop the machine
    | Releasing(guest: Guest)             // machine stopped, about to release the share guard
    | Fetched(guest: Guest)               // run: read the table, waits for the guest's lock
    | Running(guest: Guest)               // run: holds the lock and executes

  datatype State = State(
    table: map<Lease, Guest>,
    calls: map<CallId, Phase>,
    locks: map<Guest, CallId>,
    booted: set<Guest>,
    stops: map<Guest, nat>,      // how often the machine was stopped
    releases: map<Guest, nat>)   // how often its share guard was released

  datatype Step =
    | BeginStart(call: CallId, lease: Lease)
    | StartFails(call: CallId)
    | Boot(call: CallId, guest: Guest)
    | Insert(call: CallId)
    | Remove(call: CallId, lease: Lease)
    | LockToStop(call: CallId)
    | StopMachine(call: CallId)
    | ReleaseGuard(call: CallId)
    | Fetch(call: CallId, lease: Lease)
    | LockToRun(call: CallId)
    | EndRun(call: CallId)

  function Count(m: map<Guest, nat>, g: Guest): nat {
    if g in m then m[g] else 0
  }

  ghost predicate Next(s: State, step: Step, t: State) {
    match step
    case BeginStart(c, lease) => c !in s.calls && t == s.(calls := s.calls[c := Preparing(lease)])
    case StartFails(c) => c in s.calls && s.calls[c].Preparing? && t == s.(calls := s.calls - {c})
    case Boot(c, g) =>
      && c in s.calls && s.calls[c].Preparing? && g !in s.booted
      && t == s.(calls := s.calls[c := Booted(s.calls[c].lease, g)], booted := s.booted + {g})
    case Insert(c) =>
      && c in s.calls && s.calls[c].Booted?
      && var lease, g := s.calls[c].lease, s.calls[c].guest;
         t == s.(table := s.table[lease := g],
                 calls := if lease in s.table then s.calls[c := Leaving(s.table[lease])] else s.calls - {c})
    case Remove(c, lease) =>
      && c !in s.calls
      && t == if lease in s.table
              then s.(table := s.table - {lease}, calls := s.calls[c := Leaving(s.table[lease])])
              else s
    case LockToStop(c) =>
      && c in s.calls && s.calls[c].Leaving? && s.calls[c].guest !in s.locks
      && t == s.(calls := s.calls[c := Stopping(s.calls[c].guest)], locks := s.locks[s.calls[c].guest := c])
    case StopMachine(c) =>
      && c in s.calls && s.calls[c].Stopping?
      && var g := s.calls[c].guest;
         t == s.(calls := s.calls[c := Releasing(g)], stops := s.stops[g := Count(s.stops, g) + 1])
    case ReleaseGuard(c) =>
      && c in s.calls && s.calls[c].Releasing?
      && var g := s.calls[c].guest;
         t == s.(calls := s.calls - {c}, locks := s.locks - {g}, releases := s.releases[g := Count(s.releases, g) + 1])
    case Fetch(c, lease) =>
      && c !in s.calls
      && t == if lease in s.table then s.(calls := s.calls[c := Fetched(s.table[lease])]) else s
    case LockToRun(c) =>
      && c in s.calls && s.calls[c].Fetched? && s.calls[c].guest !in s.locks
      && t == s.(calls := s.calls[c := Running(s.calls[c].guest)], locks := s.locks[s.calls[c].guest := c])
    case EndRun(c) =>
      && c in s.calls && s.calls[c].Running?
      && t == s.(calls := s.calls - {c}, locks := s.locks - {s.calls[c].guest})
  }

  // ---------- where a guest is ----------

  datatype Place = InFlight(call: CallId) | InTable(lease: Lease) | Going(call: CallId) | Gone

  predicate OnTheWayOut(p: Phase) {
    p.Leaving? || p.Stopping? || p.Releasing?
  }

  predicate Holds(p: Phase) {
    p.Stopping? || p.Releasing? || p.Running?
  }

  /** `places` says where each booted guest is; the table, the calls and the counters agree
      with it, and a guest's lock is held by exactly the call that uses it. */
  ghost predicate Coherent(s: State, places: map<Guest, Place>) {
    Placed(s, places) && Locked(s)
  }

  ghost predicate Placed(s: State, places: map<Guest, Place>) {
    Located(s, places) && Accounted(s, places)
  }

  /** Each table entry and each call knows where its guest is. */
  ghost predicate Located(s: State, places: map<Guest, Place>) {
    && (forall lease | lease in s.table :: s.table[lease] in places && places[s.table[lease]] == InTable(lease))
    && (forall c | c in s.calls && s.calls[c].Booted? ::
          s.calls[c].guest in places && places[s.calls[c].guest] == InFlight(c))
    && (forall c | c in s.calls && OnTheWayOut(s.calls[c]) ::
          s.calls[c].guest in places && places[s.calls[c].guest] == Going(c))
  }

  /** Each booted guest is where it is said to be, and the counters fit. */
  ghost predicate Accounted(s: State, places: map<Guest, Place>) {
    && places.Keys == s.booted
    && (forall g | g in places :: PlaceOk(s, places[g], g))
    && (forall g :: g !in s.booted ==> Count(s.stops, g) == 0 && Count(s.releases, g) == 0)
  }

  ghost predicate Locked(s: State) {
    && (forall g | g in s.locks ::
          s.locks[g] in s.calls && Holds(s.calls[s.locks[g]]) && s.calls[s.locks[g]].guest == g)
    && (forall c | c in s.calls && Holds(s.calls[c]) ::
          s.calls[c].guest in s.locks && s.locks[s.calls[c].guest] == c)
  }

  ghost predicate PlaceOk(s: State, place: Place, g: Guest) {
    match place
    case InFlight(c) =>
      c in s.calls && s.calls[c].Booted? && s.calls[c].guest == g && Count(s.stops, g) == 0 && Count(s.releases, g) == 0
    case InTable(lease) =>
      lease in s.table && s.table[lease] == g && Count(s.stops, g) == 0 && Count(s.releases, g) == 0
    case Going(c) =>
      && c in s.calls && OnTheWayOut(s.calls[c]) && s.calls[c].guest == g
      && Count(s.stops, g) == (if s.calls[c].Releasing? then 1 else 0) && Count(s.releases, g) == 0
    case Gone => Count(s.stops, g) == 1 && Count(s.releases, g) == 1
  }

  /** Where each guest is after a step. */
  ghost function Moved(s: State, places: map<Guest, Place>, step: Step): map<Guest, Place> {
    match step
    case Boot(c, g) => places[g := InFlight(c)]
    case Insert(c) =>
      if c in s.calls && s.calls[c].Booted? then
        var lease, g := s.calls[c].lease, s.calls[c].guest;
        if lease in s.table then places[s.table[lease] := Going(c)][g := InTable(lease)]
        else places[g := InTable(lease)]
      else places
    case Remove(c, lease) => if lease in s.table then places[s.table[lease] := Going(c)] else places
    case ReleaseGuard(c) =>
      if c in s.calls && s.calls[c].Releasing? then places[s.calls[c].guest := Gone] else places
    case _ => places
  }

  lemma BeginStartKeeps(s: State, places: map<Guest, Place>, step: Step, t: State)
    requires Placed(s, places) && step.BeginStart? && Next(s, step, t)
    ensures Placed(t, Moved(s, places, step))
  {
    hide Count;
  }

  lemma StartFailsKeeps(s: State, places: map<Guest, Place>, step: Step, t: State)
    requires Placed(s, places) && step.StartFails? && Next(s, step, t)
    ensures Placed(t, Moved(s, places, step))
  {
    hide Count;
  }

  lemma BootKeeps(s: State, places: map<Guest, Place>, step: Step, t: State)
    requires Placed(s, places) && step.Boot? && Next(s, step, t)
    ensures Placed(t, Moved(s, places, step))
  {
    hide Count;
  }

  lemma FreshInsertKeeps(s: State, places: map<Guest, Place>, step: Step, t: State)
    requires Placed(s, places) && step.Insert? && Next(s, step, t) && s.calls[step.call].lease !in s.table
    ensures Placed(t, Moved(s, places, step))
  {
    hide Count;
    var c, lease, came := step.call, s.calls[step.call].lease, s.calls[step.call].guest;
    assert PlaceOk(s, places[came], came);
    forall g | g in places && g != came
      ensures PlaceOk(t, places[g], g)
    {
      StaysPut(s, t, c, places[g], g);
    }
  }

  /** A guest that neither call `c` nor the table entry that changes is about stays where it is. */
  lemma StaysPut(s: State, t: State, c: CallId, place: Place, g: Guest)
    requires PlaceOk(s, place, g)
    requires place.InFlight? || place.Going? ==> place.call != c
    requires place.InTable? ==> place.lease in t.table && t.table[place.lease] == g
    requires forall other | other != c && other in s.calls :: other in t.calls && t.calls[other] == s.calls[other]
    requires Count(t.stops, g) == Count(s.stops, g) && Count(t.releases, g) == Count(s.releases, g)
    ensures PlaceOk(t, place, g)
  {
    hide Count;
  }

  lemma ReplacingInsertLocates(s: State, places: map<Guest, Place>, step: Step, t: State)
    requires Placed(s, places) && Next(s, step, t) && step.Insert? && s.calls[step.call].lease in s.table
    ensures Located(t, Moved(s, places, step))
  {
    hide Count;
    var came, left := s.calls[step.call].guest, s.table[s.calls[step.call].lease];
    assert PlaceOk(s, places[came], came) && PlaceOk(s, places[left], left) && came != left;
    hide PlaceOk;
  }

  lemma ReplacingInsertAccounts(s: State, places: map<Guest, Place>, step: Step, t: State)
    requires Placed(s, places) && Next(s, step, t) && step.Insert? && s.calls[step.call].lease in s.table
    ensures Accounted(t, Moved(s, places, step))
  {
    hide Count;
    var c, lease := step.call, s.calls[step.call].lease;
    var came, left := s.calls[c].guest, s.table[lease];
    var places' := Moved(s, places, step);
    assert PlaceOk(s, places[came], came) && PlaceOk(s, places[left], left) && came != left;
    forall g | g in places'
      ensures PlaceOk(t, places'[g], g)
    {
      if g != came && g != left {
        StaysPut(s, t, c, places[g], g);
      }
    }
    hide PlaceOk;
  }

  lemma ReplacingInsertKeeps(s: State, places: map<Guest, Place>, step: Step, t: State)
    requires Placed(s, places) && step.Insert? && Next(s, step, t) && s.calls[step.call].lease in s.table
    ensures Placed(t, Moved(s, places, step))
  {
    hide Located, Accounted, Moved, Next;
    ReplacingInsertLocates(s, places, step, t);
    ReplacingInsertAccounts(s, places, step, t);
  }

  lemma InsertKeeps(s: State, places: map<Guest, Place>, step: Step, t: State)
    requires Placed(s, places) && step.Insert? && Next(s, step, t)
    ensures Placed(t, Moved(s, places, step))
  {
    hide Placed, Moved;
    if s.calls[step.call].lease in s.table {
      ReplacingInsertKeeps(s, places, step, t);
    } else {
      FreshInsertKeeps(s, places, step, t);
    }
  }

  lemma RemoveLocates(s: State, places: map<Guest, Place>, step: Step, t: State)
    requires Placed(s, places) && Next(s, step, t) && step.Remove?
    ensures Located(t, Moved(s, places, step))
  {
    hide Count;
    if step.lease in s.table {
      assert PlaceOk(s, places[s.table[step.lease]], s.table[step.lease]);
    }
    hide PlaceOk;
  }

  lemma RemoveAccounts(s: State, places: map<Guest, Place>, step: Step, t: State)
    requires Placed(s, places) && Next(s, step, t) && step.Remove?
    ensures Accounted(t, Moved(s, places, step))
  {
    hide Count;
    if step.lease in s.table {
      var left := s.table[step.lease];
      assert PlaceOk(s, places[left], left);
      forall g | g in places && g != left
        ensures PlaceOk(t, places[g], g)
      {
        StaysPut(s, t, step.call, places[g], g);
      }
    }
    hide PlaceOk;
  }

  lemma RemoveKeeps(s: State, places: map<Guest, Place>, step: Step, t: State)
    requires Placed(s, places) && step.Remove? && Next(s, step, t)
    ensures Placed(t, Moved(s, places, step))
  {
    hide Located, Accounted, Moved, Next;
    RemoveLocates(s, places, step, t);
    RemoveAccounts(s, places, step, t);
  }

  lemma LockToStopKeeps(s: State, places: map<Guest, Place>, step: Step, t: State)
    requires Placed(s, places) && step.LockToStop? && Next(s, step, t)
    ensures Placed(t, Moved(s, places, step))
  {
    hide Count;
  }

  lemma StopMachineKeeps(s: State, places: map<Guest, Place>, step: Step, t: State)
    requires Placed(s, places) && step.StopMachine? && Next(s, step, t)
    ensures Placed(t, Moved(s, places, step))
  {
    var c := step.call;
    var stopped := s.calls[c].guest;
    assert PlaceOk(s, places[stopped], stopped);
    forall g | g in places
      ensures PlaceOk(t, places[g], g)
    {
      if g != stopped {
        StaysPut(s, t, c, places[g], g);
      }
    }
    hide PlaceOk;
  }

  lemma ReleaseGuardKeeps(s: State, places: map<Guest, Place>, step: Step, t: State)
    requires Placed(s, places) && step.ReleaseGuard? && Next(s, step, t)
    ensures Placed(t, Moved(s, places, step))
  {
    var c := step.call;
    var gone := s.calls[c].guest;
    assert PlaceOk(s, places[gone], gone);
    forall g | g in places && g != gone
      ensures PlaceOk(t, places[g], g)
    {
      StaysPut(s, t, c, places[g], g);
    }
    hide PlaceOk;
  }

  lemma FetchKeeps(s: State, places: map<Guest, Place>, step: Step, t: State)
    requires Placed(s, places) && step.Fetch? && Next(s, step, t)
    ensures Placed(t, Moved(s, places, step))
  {
    hide Count;
  }

  lemma LockToRunKeeps(s: State, places: map<Guest, Place>, step: Step, t: State)
    requires Placed(s, places) && step.LockToRun? && Next(s, step, t)
    ensures Placed(t, Moved(s, places, step))
  {
    hide Count;
    forall g | g in places
      ensures PlaceOk(t, places[g], g)
    {
      assert PlaceOk(s, places[g], g);
      StaysPut(s, t, step.call, places[g], g);
    }
    hide PlaceOk;
  }

  lemma EndRunKeeps(s: State, places: map<Guest, Place>, step: Step, t: State)
    requires Placed(s, places) && step.EndRun? && Next(s, step, t)
    ensures Placed(t, Moved(s, places, step))
  {
    hide Count;
    forall g | g in places
      ensures PlaceOk(t, places[g], g)
    {
      assert PlaceOk(s, places[g], g);
      StaysPut(s, t, step.call, places[g], g);
    }
    hide PlaceOk;
  }

  lemma LocksKept(s: State, step: Step, t: State)
    requires Locked(s) && Next(s, step, t)
    ensures Locked(t)
  {
  }

  lemma StepKeepsCoherent(s: State, places: map<Guest, Place>, step: Step, t: State)
    requires Coherent(s, places) && Next(s, step, t)
    ensures Coherent(t, Moved(s, places, step))
  {
    hide Placed, Locked, Next, Moved;
    LocksKept(s, step, t);
    match step
    case BeginStart(_, _) => BeginStartKeeps(s, places, step, t);
    case StartFails(_) => StartFailsKeeps(s, places, step, t);
    case Boot(_, _) => BootKeeps(s, places, step, t);
    case Insert(_) => InsertKeeps(s, places, step, t);
    case Remove(_, _) => RemoveKeeps(s, places, step, t);
    case LockToStop(_) => LockToStopKeeps(s, places, step, t);
    case StopMachine(_) => StopMachineKeeps(s, places, step, t);
    case ReleaseGuard(_) => ReleaseGuardKeeps(s, places, step, t);
    case Fetch(_, _) => FetchKeeps(s, places, step, t);
    case LockToRun(_) => LockToRunKeeps(s, places, step, t);
    case EndRun(_) => EndRunKeeps(s, places, step, t);
  }

  // ---------- every interleaving ----------

  ghost predicate IsRun(states: seq<State>, steps: seq<Step>) {
    && |states| == |steps| + 1
    && states[0] == State(map[], map[], map[], {}, map[], map[])
    && forall i: nat | i < |steps| :: StepAt(states, steps, i)
  }

  ghost predicate StepAt(states: seq<State>, steps: seq<Step>, i: nat)
    requires i < |steps| && |states| == |steps| + 1
  {
    Next(states[i], steps[i], states[i + 1])
  }

  /** Where each guest is at state `i`. */
  ghost function PlacesAt(states: seq<State>, steps: seq<Step>, i: nat): map<Guest, Place>
    requires i < |states| == |steps| + 1
  {
    if i == 0 then map[] else Moved(states[i - 1], PlacesAt(states, steps, i - 1), steps[i - 1])
  }

  lemma {:induction false} RunIsCoherent(states: seq<State>, steps: seq<Step>, i: nat)
    requires IsRun(states, steps) && i < |states|
    ensures Coherent(states[i], PlacesAt(states, steps, i))
  {
    hide Next, Moved;
    if i > 0 {
      RunIsCoherent(states, steps, i - 1);
      assert StepAt(states, steps, i - 1);
      StepKeepsCoherent(states[i - 1], PlacesAt(states, steps, i - 1), steps[i - 1], states[i]);
    }
  }

  /** Guest `g` is at `place`, read off the state alone. */
  ghost predicate At(s: State, g: Guest, place: Place) {
    match place
    case InFlight(c) => c in s.calls && s.calls[c].Booted? && s.calls[c].guest == g
    case InTable(lease) => lease in s.table && s.table[lease] == g
    case Going(c) => c in s.calls && OnTheWayOut(s.calls[c]) && s.calls[c].guest == g
    case Gone => Count(s.releases, g) > 0
  }

  lemma PlaceIsThere(s: State, places: map<Guest, Place>, g: Guest)
    requires Coherent(s, places) && g in s.booted
    ensures g in places && At(s, g, places[g])
  {
    assert PlaceOk(s, places[g], g);
  }

  lemma NowhereElse(s: State, places: map<Guest, Place>, g: Guest, other: Place)
    requires Coherent(s, places) && g in s.booted && At(s, g, other)
    ensures g in places && places[g] == other
  {
    assert PlaceOk(s, places[g], g);
  }

  /** In every interleaving a booted guest is in exactly one place: with one call that has
      not published it, under one lease, with one call that stops it, or gone. */
  lemma OnePlace(states: seq<State>, steps: seq<Step>, i: nat, g: Guest)
    requires IsRun(states, steps) && i < |states| && g in states[i].booted
    ensures exists place :: At(states[i], g, place) && forall other :: At(states[i], g, other) ==> other == place
  {
    RunIsCoherent(states, steps, i);
    var places, s := PlacesAt(states, steps, i), states[i];
    hide IsRun, Coherent, At;
    PlaceIsThere(s, places, g);
    forall other | At(s, g, other)
      ensures other == places[g]
    {
      NowhereElse(s, places, g, other);
    }
  }

  /** No machine is stopped twice and no guard released twice; a guard is released only
      after its machine was stopped, and only for a guest that left the table. */
  lemma StoppedAtMostOnce(states: seq<State>, steps: seq<Step>, i: nat, g: Guest)
    requires IsRun(states, steps) && i < |states|
    ensures var s := states[i];
      && Count(s.releases, g) <= Count(s.stops, g) <= 1
      && (Count(s.stops, g) == 1 ==> g in s.booted && forall lease | lease in s.table :: s.table[lease] != g)
  {
    RunIsCoherent(states, steps, i);
    var places := PlacesAt(states, steps, i);
    if g in states[i].booted {
      assert PlaceOk(states[i], places[g], g);
    }
  }

  /** When no call is in flight, the guests never stopped are exactly those in the table,
      one per lease; all others were stopped and released exactly once. */
  lemma QuietMeansTabled(states: seq<State>, steps: seq<Step>, i: nat, g: Guest)
    requires IsRun(states, steps) && i < |states| && states[i].calls == map[] && g in states[i].booted
    ensures var s := states[i];
      && (Count(s.stops, g) == 0 <==> g in s.table.Values)
      && (Count(s.stops, g) == 1 <==> Count(s.releases, g) == 1)
      && (g !in s.table.Values ==> Count(s.stops, g) == 1 && Count(s.releases, g) == 1)
      && (forall one, two | one in s.table && two in s.table && s.table[one] == g && s.table[two] == g :: one == two)
  {
    RunIsCoherent(states, steps, i);
    var places := PlacesAt(states, steps, i);
    assert PlaceOk(states[i], places[g], g);
  }

  /** A guest is never stopped under a running execution: one call at a time holds its lock. */
  lemma StopWaitsForRuns(states: seq<State>, steps: seq<Step>, i: nat, one: CallId, two: CallId)
    requires IsRun(states, steps) && i < |states|
    requires one in states[i].calls && two in states[i].calls && one != two
    requires Holds(states[i].calls[one]) && Holds(states[i].calls[two])
    ensures states[i].calls[one].guest != states[i].calls[two].guest
  {
    RunIsCoherent(states, steps, i);
  }

  // ---------- every stop gets done ----------

  /** A guest that a call is about to stop stays with this call until it is gone. */
  lemma StillGoing(s: State, places: map<Guest, Place>, step: Step, t: State, g: Guest, c: CallId)
    requires Coherent(s, places) && Next(s, step, t) && g in places && places[g] in {Going(c), Gone}
    ensures var places' := Moved(s, places, step); g in places' && places'[g] in {Going(c), Gone}
  {
    hide PlaceOk;
  }

  lemma {:induction false} GoingEnds(states: seq<State>, steps: seq<Step>, j: nat, i: nat, g: Guest, c: CallId)
    requires IsRun(states, steps) && j <= i < |states|
    requires var places := PlacesAt(states, steps, j); g in places && places[g] == Going(c)
    ensures var places := PlacesAt(states, steps, i); g in places && places[g] in {Going(c), Gone}
    decreases i
  {
    hide Next, Moved, Coherent;
    if j < i {
      GoingEnds(states, steps, j, i - 1, g, c);
      RunIsCoherent(states, steps, i - 1);
      assert StepAt(states, steps, i - 1);
      StillGoing(states[i - 1], PlacesAt(states, steps, i - 1), steps[i - 1], states[i], g, c);
    }
  }

  /** The guest that this step takes out of the table: that of a stop, or one that a start replaces. */
  ghost predicate TakesOut(s: State, step: Step, lease: Lease) {
    && lease in s.table
    && match step
       case Remove(_, l) => l == lease
       case Insert(c) => c in s.calls && s.calls[c].Booted? && s.calls[c].lease == lease
       case _ => false
  }

  lemma TakenOutIsGoing(s: State, places: map<Guest, Place>, step: Step, t: State, lease: Lease)
    requires Coherent(s, places) && Next(s, step, t) && TakesOut(s, step, lease)
    ensures var g, places' := s.table[lease], Moved(s, places, step);
      g in places' && places'[g] == Going(step.call)
  {
    assert PlaceOk(s, places[s.table[lease]], s.table[lease]);
    if step.Insert? {
      assert PlaceOk(s, places[s.calls[step.call].guest], s.calls[step.call].guest);
    }
  }

  /** What a call takes out of the table it stops: from then on the guest is under no lease, and
      once the call is over its machine was stopped and its guard released. */
  lemma TakenOutIsStopped(states: seq<State>, steps: seq<Step>, i: nat, k: nat, lease: Lease)
    requires IsRun(states, steps) && i < k < |states| && TakesOut(states[i], steps[i], lease)
    ensures var s, g, call := states[k], states[i].table[lease], steps[i].call;
      && g !in s.table.Values
      && (call !in s.calls ==> Count(s.stops, g) == 1 && Count(s.releases, g) == 1)
  {
    var g, c := states[i].table[lease], steps[i].call;
    RunIsCoherent(states, steps, i);
    RunIsCoherent(states, steps, k);
    assert StepAt(states, steps, i);
    TakenOutIsGoing(states[i], PlacesAt(states, steps, i), steps[i], states[i + 1], lease);
    GoingEnds(states, steps, i + 1, k, g, c);
    hide IsRun, Moved, Next;
    var places := PlacesAt(states, steps, k);
    assert PlaceOk(states[k], places[g], g);
  }

  /** A stop leaves nothing under its lease, a start its own guest. */
  lemma TableFollows(states: seq<State>, steps: seq<Step>, i: nat)
    requires IsRun(states, steps) && i < |steps|
    ensures steps[i].Remove? ==> states[i + 1].table == states[i].table - {steps[i].lease}
    ensures steps[i].Insert? ==>
      && steps[i].call in states[i].calls && states[i].calls[steps[i].call].Booted?
      && var start := states[i].calls[steps[i].call];
         states[i + 1].table == states[i].table[start.lease := start.guest]
    ensures !steps[i].Remove? && !steps[i].Insert? ==> states[i + 1].table == states[i].table
  {
    assert StepAt(states, steps, i);
  }

  /** An execution concerns the guest that was under its lease when it began, as long as it lasts. */
  lemma {:induction false} RunsTheLeasedGuest(states: seq<State>, steps: seq<Step>, i: nat, k: nat)
    requires IsRun(states, steps) && i < k < |states| && steps[i].Fetch? && steps[i].lease in states[i].table
    requires forall m | i + 2 <= m <= k :: steps[i].call in states[m].calls
    ensures var c, g := steps[i].call, states[i].table[steps[i].lease];
      c in states[k].calls && states[k].calls[c] in {Fetched(g), Running(g)}
    decreases k
  {
    assert StepAt(states, steps, k - 1);
    if k > i + 1 {
      RunsTheLeasedGuest(states, steps, i, k - 1);
    }
  }
}
